/**
 * Syncing the payment database from the user node in two phases: refresh what
 * is pending, then fetch what is newer (app-rs/src/payments.rs, `sync_payments`).
 */
module PaymentSync {
  import opened Wrappers
  import opened Payments
  import opened DbState
  import opened PaymentDatabase
  import Bitmap
  import PaymentRead

  datatype SyncError = NodeRequestFailed | TooManyPayments | Persist(error: IoError)

  datatype Summary = Summary(numUpdated: nat, numNew: nat) {
    predicate AnyChanges() { numNew > 0 || numUpdated > 0 }
  }

  // --- The node: its payments in key order, fixed during a sync --- //

  ghost predicate UniqueIds(node: seq<BasicPayment>) {
    forall i, j :: 0 <= i < j < |node| ==> node[i].index.id != node[j].index.id
  }

  ghost predicate IsNode(node: seq<BasicPayment>) {
    StrictlySorted(node) && UniqueIds(node)
  }

  /** Payments with an index strictly after `start`. */
  function After(node: seq<BasicPayment>, start: Option<PaymentIndex>): (r: seq<BasicPayment>)
  {
    if start.None? || node == [] || start.value.Less(node[0].index) then node
    else After(node[1..], start)
  }

  function Take(ps: seq<BasicPayment>, limit: nat): seq<BasicPayment>
  {
    if |ps| <= limit then ps else ps[..limit]
  }

  function FindById(node: seq<BasicPayment>, id: LxPaymentId): (r: Option<BasicPayment>)
  {
    if node == [] then None
    else if node[0].index.id == id then Some(node[0])
    else FindById(node[1..], id)
  }

  /** One answer per id that the node knows, in request order. */
  function ByIds(node: seq<BasicPayment>, ids: seq<LxPaymentId>): (r: seq<BasicPayment>)
    ensures |r| <= |ids|
  {
    if ids == [] then []
    else
      var init := ByIds(node, ids[..|ids| - 1]);
      match FindById(node, ids[|ids| - 1])
      case None => init
      case Some(p) => init + [p]
  }

  /** The user node as the app sees it: its payments, and requests that may fail on the way. */
  class Node {
    const payments: seq<BasicPayment>
    /** How many requests have failed. */
    ghost var failures: nat

    constructor (payments: seq<BasicPayment>)
      ensures this.payments == payments && failures == 0
    {
      this.payments := payments;
      failures := 0;
    }

    method GetPaymentsByIds(ids: seq<LxPaymentId>) returns (r: Option<seq<BasicPayment>>)
      modifies this
      ensures r.Some? ==> r.value == ByIds(payments, ids)
      ensures failures == old(failures) + if r.Some? then 0 else 1
    {
      var ok: bool := *;
      failures := if ok then failures else failures + 1;
      r := if ok then Some(ByIds(payments, ids)) else None;
    }

    method GetNewPayments(start: Option<PaymentIndex>, limit: nat) returns (r: Option<seq<BasicPayment>>)
      modifies this
      ensures r.Some? ==> r.value == Take(After(payments, start), limit)
      ensures failures == old(failures) + if r.Some? then 0 else 1
    {
      var ok: bool := *;
      failures := if ok then failures else failures + 1;
      r := if ok then Some(Take(After(payments, start), limit)) else None;
    }
  }

  lemma {:induction false} AfterIsSuffix(node: seq<BasicPayment>, start: Option<PaymentIndex>) returns (k: nat)
    requires StrictlySorted(node)
    ensures k <= |node| && After(node, start) == node[k..]
    ensures start.None? ==> k == 0
    ensures start.Some? ==> forall i :: 0 <= i < k ==> !start.value.Less(node[i].index)
    ensures start.Some? ==> forall i :: k <= i < |node| ==> start.value.Less(node[i].index)
  {
    if start.None? || node == [] || start.value.Less(node[0].index) {
      k := 0;
      if start.Some? && node != [] {
        forall i | 0 <= i < |node| ensures start.value.Less(node[i].index) {
          assert i == 0 || node[0].index.Less(node[i].index);
        }
      }
    } else {
      var k' := AfterIsSuffix(node[1..], start);
      k := k' + 1;
      assert node[1..][k'..] == node[k..];
      forall i | 0 <= i < |node| ensures i < k <==> !start.value.Less(node[i].index) {
        assert i == 0 || node[i] == node[1..][i - 1];
      }
    }
  }

  /** Moving the start to the last payment taken leaves exactly the payments not yet taken. */
  lemma AfterAdvances(node: seq<BasicPayment>, start: Option<PaymentIndex>, n: nat)
    requires StrictlySorted(node)
    requires 0 < n <= |After(node, start)|
    ensures After(node, Some(After(node, start)[n - 1].index)) == After(node, start)[n..]
    ensures StrictlySorted(After(node, start))
  {
    var k := AfterIsSuffix(node, start);
    var last := Some(After(node, start)[n - 1].index);
    var m := AfterIsSuffix(node, last);
    assert last.value == node[k + n - 1].index;
    assert !last.value.Less(node[k + n - 1].index);
    assert k + n < |node| ==> last.value.Less(node[k + n].index);
  }

  // --- New payments --- //

  ghost predicate Bounded(s: PaymentDbState) {
    && (forall i :: i in s.pending ==> i < |s.payments|)
    && (forall i :: i in s.pendingNotJunk ==> i < |s.payments|)
    && (forall i :: i in s.finalizedNotJunk ==> i < |s.payments|)
  }

  lemma BoundedHasNoConflict(s: PaymentDbState, j: nat, p: BasicPayment)
    requires Bounded(s)
    ensures !Conflict(s, |s.payments| + j, p)
  {}

  lemma AppendAllTwice(s: PaymentDbState, a: seq<BasicPayment>, b: seq<BasicPayment>)
    ensures AppendAll(AppendAll(s, a), b) == AppendAll(s, a + b)
  {}

  lemma {:induction false} WriteAllTwice(files: Files, a: seq<BasicPayment>, b: seq<BasicPayment>)
    ensures WriteAll(WriteAll(files, a), b) == WriteAll(files, a + b)
    decreases |b|
  {
    hide FileName;
    if b == [] {
      assert a + b == a;
    } else {
      WriteAllTwice(files, a, b[..|b| - 1]);
      assert (a + b)[..|a + b| - 1] == a + b[..|b| - 1];
    }
  }

  lemma AppendKeepsBounded(s: PaymentDbState, ps: seq<BasicPayment>)
    requires Bounded(s)
    ensures Bounded(AppendAll(s, ps))
  {}

  /** The state of the new-payments loop after `k` payments of `newer` have been inserted. */
  ghost predicate NewLoopInv(s0: PaymentDbState, f0: Files, node: seq<BasicPayment>, newer: seq<BasicPayment>,
                             k: nat, s: PaymentDbState, files: Files)
  {
    && k <= |newer|
    && s == AppendAll(s0, newer[..k]) && files == WriteAll(f0, newer[..k])
    && Bounded(s)
    && After(node, s.LatestPaymentIndex()) == newer[k..]
  }

  lemma NewLoopStart(s0: PaymentDbState, f0: Files, node: seq<BasicPayment>)
    requires Bounded(s0)
    ensures NewLoopInv(s0, f0, node, After(node, s0.LatestPaymentIndex()), 0, s0, f0)
  {}

  lemma NewLoopStep(s0: PaymentDbState, f0: Files, node: seq<BasicPayment>, newer: seq<BasicPayment>,
                    k: nat, s: PaymentDbState, files: Files, n: nat)
    requires StrictlySorted(node)
    requires NewLoopInv(s0, f0, node, newer, k, s, files)
    requires k + n <= |newer|
    ensures NewLoopInv(s0, f0, node, newer, k + n, AppendAll(s, newer[k..k + n]), WriteAll(files, newer[k..k + n]))
  {
    var batch := newer[k..k + n];
    assert newer[..k] + batch == newer[..k + n];
    AppendAllTwice(s0, newer[..k], batch);
    WriteAllTwice(f0, newer[..k], batch);
    AppendKeepsBounded(s, batch);
    NewLoopAdvance(node, newer, k, s, n);
  }

  lemma NewLoopAdvance(node: seq<BasicPayment>, newer: seq<BasicPayment>, k: nat, s: PaymentDbState, n: nat)
    requires StrictlySorted(node) && k + n <= |newer|
    requires After(node, s.LatestPaymentIndex()) == newer[k..]
    ensures After(node, AppendAll(s, newer[k..k + n]).LatestPaymentIndex()) == newer[k + n..]
  {
    hide *;
    LatestAfterAppend(s, newer[k..k + n]);
    if n > 0 {
      assert newer[k..][n - 1] == newer[k..k + n][n - 1];
      AfterAdvances(node, s.LatestPaymentIndex(), n);
      assert newer[k..][n..] == newer[k + n..];
    }
  }

  lemma LatestAfterAppend(s: PaymentDbState, batch: seq<BasicPayment>)
    ensures AppendAll(s, batch).LatestPaymentIndex() ==
            if batch == [] then s.LatestPaymentIndex() else Some(batch[|batch| - 1].index)
  {}

  /** The batch that the node returns is always one that the database accepts. */
  lemma BatchIsInsertable(node: seq<BasicPayment>, s: PaymentDbState, limit: nat)
    requires StrictlySorted(node)
    ensures var batch := Take(After(node, s.LatestPaymentIndex()), limit);
            StrictlySorted(batch) && Newer(s, batch)
  {}

  /**
   * Fetches batches until a short one. Terminates because every full batch
   * shrinks the set of node payments newer than the latest local one. `added`
   * payments are in the database at the end; `reached` had its write fail.
   */
  method SyncNewPayments(db: PaymentDb, api: Node, batchSize: nat)
    returns (r: Result<nat, SyncError>, ghost added: nat, ghost reached: nat)
    requires batchSize > 0 && StrictlySorted(api.payments) && Bounded(db.state)
    requires |db.state.payments| + |After(api.payments, db.state.LatestPaymentIndex())| < MAX_PAYMENTS
    modifies db, db.ffs, api
    ensures r.Ok? ==>
              var newer := After(api.payments, old(db.state).LatestPaymentIndex());
              && r.value == |newer|
              && db.state == AppendAll(old(db.state), newer)
              && db.ffs.files == WriteAll(old(db.ffs.files), newer)
    ensures r.Err? ==> r.error == NodeRequestFailed || r.error == Persist(WriteFailed)
    ensures api.failures == old(api.failures) + if r == Err(NodeRequestFailed) then 1 else 0
    ensures db.ffs.failures == old(db.ffs.failures) + if r == Err(Persist(WriteFailed)) then 1 else 0
    ensures r == Err(NodeRequestFailed) ==>
              var newer := After(api.payments, old(db.state).LatestPaymentIndex());
              && added <= |newer|
              && db.state == AppendAll(old(db.state), newer[..added])
              && db.ffs.files == WriteAll(old(db.ffs.files), newer[..added])
    ensures r == Err(Persist(WriteFailed)) ==>
              var newer := After(api.payments, old(db.state).LatestPaymentIndex());
              && added <= reached < |newer|
              && db.state == IndexedOnly(AppendAll(old(db.state), newer[..added]), newer[added..reached + 1])
              && db.ffs.files - {FileName(newer[reached])} ==
                 WriteAll(old(db.ffs.files), newer[..reached]) - {FileName(newer[reached])}
  {
    hide *;
    var node := api.payments;
    ghost var s0, f0 := db.state, db.ffs.files;
    ghost var newer := After(node, db.state.LatestPaymentIndex());
    NewLoopStart(s0, f0, node);
    NewLoopFacts(s0, f0, node, newer, 0, s0, f0);
    var numNew := 0;
    added, reached := 0, 0;
    while true
      invariant numNew <= |newer| && NewLoopInv(s0, f0, node, newer, numNew, db.state, db.ffs.files)
      invariant |db.state.payments| == |s0.payments| + numNew
      invariant api.failures == old(api.failures) && db.ffs.failures == old(db.ffs.failures)
      decreases |newer| - numNew
    {
      NewLoopFacts(s0, f0, node, newer, numNew, db.state, db.ffs.files);
      var resp := api.GetNewPayments(db.state.LatestPaymentIndex(), batchSize);
      added := numNew;
      if resp.None? { return Err(NodeRequestFailed), added, reached; }
      var batch := resp.value;
      TakeFacts(newer, numNew, batchSize);
      BatchIsInsertable(node, db.state, batchSize);
      ghost var before, beforeFiles := db.state, db.ffs.files;
      var inserted, written := db.InsertNewPayments(batch);
      if inserted.Err? {
        if inserted.error.AlreadyIndexed? {
          BoundedHasNoConflict(before, written, batch[written]);
          assert false;
        }
        reached := numNew + written;
        StoppedAt(f0, newer, numNew, batch, written);
        return Err(Persist(inserted.error)), added, reached;
      }
      NewLoopStep(s0, f0, node, newer, numNew, before, beforeFiles, |batch|);
      NewLoopFacts(s0, f0, node, newer, numNew + |batch|, db.state, db.ffs.files);
      numNew := numNew + |batch|;
      if |batch| < batchSize {
        assert newer[..numNew] == newer;
        return Ok(numNew), numNew, reached;
      }
    }
  }

  /** Where in `newer` a batch stopped. */
  lemma StoppedAt(f0: Files, newer: seq<BasicPayment>, k: nat, batch: seq<BasicPayment>, written: nat)
    requires k + |batch| <= |newer| && batch == newer[k..k + |batch|] && written < |batch|
    ensures batch[written] == newer[k + written] && batch[..written + 1] == newer[k..k + written + 1]
    ensures WriteAll(WriteAll(f0, newer[..k]), batch[..written]) == WriteAll(f0, newer[..k + written])
  {
    hide WriteAll;
    assert newer[..k] + batch[..written] == newer[..k + written];
    WriteAllTwice(f0, newer[..k], batch[..written]);
  }

  lemma TakeFacts(newer: seq<BasicPayment>, k: nat, limit: nat)
    requires k <= |newer|
    ensures var batch := Take(newer[k..], limit);
            && k + |batch| <= |newer| && batch == newer[k..k + |batch|] && |batch| <= limit
            && (|batch| < limit ==> k + |batch| == |newer|)
  {}

  lemma NewLoopFacts(s0: PaymentDbState, f0: Files, node: seq<BasicPayment>, newer: seq<BasicPayment>,
                     k: nat, s: PaymentDbState, files: Files)
    requires NewLoopInv(s0, f0, node, newer, k, s, files)
    ensures k <= |newer| && Bounded(s) && |s.payments| == |s0.payments| + k
    ensures s == AppendAll(s0, newer[..k]) && files == WriteAll(f0, newer[..k])
    ensures After(node, s.LatestPaymentIndex()) == newer[k..]
  {}

  // --- Pending payments --- //

  /** The database lags behind the node: same keys up to its latest, finalized payments already equal. */
  ghost predicate EarlierProjection(ps: seq<BasicPayment>, node: seq<BasicPayment>) {
    && |ps| <= |node|
    && forall i :: 0 <= i < |ps| ==> ps[i].index == node[i].index && (ps[i].IsFinalized() ==> ps[i] == node[i])
  }

  /**
   * What inserts, updates, note edits and syncs leave behind: the pending index
   * is exact, the two others may have missing and, within the vector, stale bits.
   */
  ghost predicate Usable(s: PaymentDbState) {
    && StrictlySorted(s.payments)
    && s.pending == Build(s.payments, PendingOnly)
    && s.finalizedNotJunk !! s.pending
    && Bounded(s)
  }

  /** The payment lacks its bit, and the node's version is one for which the code removes it. */
  predicate Stuck(s: PaymentDbState, node: seq<BasicPayment>, m: nat)
    requires |s.payments| <= |node|
  {
    m < |s.payments| && s.payments[m].IsPendingNotJunk() && m !in s.pendingNotJunk && !node[m].IsPendingNotJunk()
  }

  ghost predicate NoneStuck(s: PaymentDbState, node: seq<BasicPayment>, m: nat)
    requires |s.payments| <= |node|
  {
    forall i :: 0 <= i < m ==> !Stuck(s, node, i)
  }

  /** Positions that stop being pending and not junk. */
  function Leaving(s: PaymentDbState, node: seq<BasicPayment>, m: nat): set<nat>
    requires m <= |s.payments| <= |node|
  {
    set i: nat | i < m && s.payments[i].IsPendingNotJunk() && !node[i].IsPendingNotJunk()
  }

  /** Positions that become finalized and not junk. */
  function Joining(s: PaymentDbState, node: seq<BasicPayment>, m: nat): set<nat>
    requires m <= |s.payments| <= |node|
  {
    set i: nat | i < m && s.payments[i].IsPending() && node[i].IsFinalizedNotJunk()
  }

  /** Memory once the first `m` positions have been refreshed. */
  ghost function Refreshed(s: PaymentDbState, node: seq<BasicPayment>, m: nat): (r: PaymentDbState)
    requires m <= |s.payments| <= |node|
    ensures |r.payments| == |s.payments|
  {
    var ps := node[..m] + s.payments[m..];
    PaymentDbState(ps, Build(ps, PendingOnly), s.pendingNotJunk - Leaving(s, node, m),
        s.finalizedNotJunk + Joining(s, node, m))
  }

  /** How many of the first `m` positions differ from the node. */
  ghost function Stale(ps: seq<BasicPayment>, node: seq<BasicPayment>, m: nat): nat
    requires m <= |ps| <= |node|
  {
    if m == 0 then 0 else Stale(ps, node, m - 1) + if ps[m - 1] == node[m - 1] then 0 else 1
  }

  /** The node's current versions of the payments pending among the first `m` positions. */
  ghost function PendingAnswers(ps: seq<BasicPayment>, node: seq<BasicPayment>, m: nat): seq<BasicPayment>
    requires m <= |ps| <= |node|
  {
    if m == 0 then []
    else if ps[m - 1].IsPending() then PendingAnswers(ps, node, m - 1) + [node[m - 1]]
    else PendingAnswers(ps, node, m - 1)
  }

  function Ids(ps: seq<BasicPayment>, at: seq<nat>): (r: seq<LxPaymentId>)
    requires forall i :: 0 <= i < |at| ==> at[i] < |ps|
    ensures |r| == |at|
  {
    seq(|at|, i requires 0 <= i < |at| => ps[at[i]].index.id)
  }

  lemma {:induction false} FindByIdAt(node: seq<BasicPayment>, i: nat)
    requires UniqueIds(node) && i < |node|
    ensures FindById(node, node[i].index.id) == Some(node[i])
  {
    if i > 0 {
      FindByIdAt(node[1..], i - 1);
    }
  }

  /** Asking the node for the ids of the pending payments yields their current versions, in order. */
  lemma {:induction false} AnswersForIds(ps: seq<BasicPayment>, node: seq<BasicPayment>, m: nat)
    requires m <= |ps| && UniqueIds(node) && EarlierProjection(ps, node)
    ensures forall i :: 0 <= i < |OldestFirst(ps, PendingOnly, m)| ==> OldestFirst(ps, PendingOnly, m)[i] < |ps|
    ensures ByIds(node, Ids(ps, OldestFirst(ps, PendingOnly, m))) == PendingAnswers(ps, node, m)
  {
    hide ByIds, FindById, UniqueIds, Build;
    OldestFirstEnumerates(ps, PendingOnly, m);
    if m == 0 {
    } else {
      AnswersForIds(ps, node, m - 1);
      if ps[m - 1].IsPending() {
        var at := OldestFirst(ps, PendingOnly, m - 1);
        IdsSnoc(ps, at, m - 1);
        ByIdsSnoc(node, Ids(ps, at), ps[m - 1].index.id);
        FindByIdAt(node, m - 1);
      }
    }
  }

  lemma IdsSnoc(ps: seq<BasicPayment>, at: seq<nat>, i: nat)
    requires (forall j :: 0 <= j < |at| ==> at[j] < |ps|) && i < |ps|
    ensures Ids(ps, at + [i]) == Ids(ps, at) + [ps[i].index.id]
  {}

  lemma ByIdsSnoc(node: seq<BasicPayment>, ids: seq<LxPaymentId>, id: LxPaymentId)
    ensures ByIds(node, ids + [id]) ==
            ByIds(node, ids) + (if FindById(node, id).Some? then [FindById(node, id).value] else [])
  {}

  lemma RefreshedSorted(s: PaymentDbState, node: seq<BasicPayment>, m: nat)
    requires m <= |s.payments| && StrictlySorted(node) && EarlierProjection(s.payments, node)
    ensures StrictlySorted(Refreshed(s, node, m).payments)
  {}

  lemma RefreshApply(s: PaymentDbState, node: seq<BasicPayment>, m: nat)
    requires m < |s.payments| && Usable(s) && EarlierProjection(s.payments, node)
    requires s.payments[m].IsPending()
    ensures var t := Refreshed(s, node, m);
            && t.payments[m] == s.payments[m]
            && (UpdatePanics(t, m, node[m]) <==> Stuck(s, node, m))
            && ApplyUpdate(t, m, node[m]) == Refreshed(s, node, m + 1)
  {
    var t, t' := Refreshed(s, node, m), Refreshed(s, node, m + 1);
    assert t'.payments == t.payments[m := node[m]];
    BuildReplace(t.payments, m, node[m], PendingOnly);
  }

  /** The update of one pending position: it panics exactly when stuck, and else the refreshed prefix grows by one. */
  lemma RefreshOne(s: PaymentDbState, node: seq<BasicPayment>, m: nat)
    requires m < |s.payments| && Usable(s) && StrictlySorted(node) && EarlierProjection(s.payments, node)
    requires s.payments[m].IsPending()
    ensures var t := Refreshed(s, node, m);
            && (OnePanics(t, node[m]) <==> Stuck(s, node, m))
            && ApplyOne(t, node[m]) == Refreshed(s, node, m + 1)
            && (OneChanges(t, node[m]) <==> s.payments[m] != node[m])
  {
    hide Refreshed, ApplyUpdate, UpdatePanics, Build, Find;
    RefreshedSorted(s, node, m);
    RefreshApply(s, node, m);
    RefreshSame(s, node, m);
  }

  lemma RefreshSame(s: PaymentDbState, node: seq<BasicPayment>, m: nat)
    requires m < |s.payments| <= |node|
    ensures s.payments[m] == node[m] ==> Refreshed(s, node, m + 1) == Refreshed(s, node, m)
  {
  }

  lemma RunUpdatesSnoc(d: Progress, ps: seq<BasicPayment>, p: BasicPayment)
    ensures RunUpdates(d, ps + [p]) == StepUpdate(RunUpdates(d, ps), p)
  {}

  /** The definitions over the first `m` positions, one step unrolled. */
  lemma Unfold(d: Progress, node: seq<BasicPayment>, m: nat)
    requires m <= |d.state.payments| && EarlierProjection(d.state.payments, node)
    ensures |d.state.payments| <= |node|
    ensures IsNode(node) ==> StrictlySorted(node)
    ensures var ps := d.state.payments;
            if m == 0
            then PendingAnswers(ps, node, m) == [] && RunUpdates(d, PendingAnswers(ps, node, m)) == d
                 && Stale(ps, node, m) == 0
            else
              && Stale(ps, node, m) == Stale(ps, node, m - 1) + (if ps[m - 1] == node[m - 1] then 0 else 1)
              && (if ps[m - 1].IsPending()
                  then PendingAnswers(ps, node, m) == PendingAnswers(ps, node, m - 1) + [node[m - 1]]
                  else PendingAnswers(ps, node, m) == PendingAnswers(ps, node, m - 1) && ps[m - 1] == node[m - 1])
  {}

  lemma RefreshZero(s: PaymentDbState, node: seq<BasicPayment>)
    requires Usable(s) && |s.payments| <= |node|
    ensures Refreshed(s, node, 0) == s
  {}

  lemma RefreshStep(e: Progress, s: PaymentDbState, node: seq<BasicPayment>, m: nat)
    requires m < |s.payments| && Usable(s) && StrictlySorted(node) && EarlierProjection(s.payments, node)
    requires s.payments[m].IsPending() && e.state == Refreshed(s, node, m)
    ensures StepUpdate(e, node[m]).state == Refreshed(s, node, m + 1)
    ensures StepUpdate(e, node[m]).changed == e.changed + if s.payments[m] == node[m] then 0 else 1
  {
    RefreshOne(s, node, m);
    RefreshSame(s, node, m);
  }

  /** Memory and the change count after the answers for the first `m` positions, in closed form. */
  lemma {:induction false} RefreshPrefix(d: Progress, node: seq<BasicPayment>, m: nat)
    requires m <= |d.state.payments| && Usable(d.state)
    requires IsNode(node) && EarlierProjection(d.state.payments, node)
    ensures RunUpdates(d, PendingAnswers(d.state.payments, node, m)).state == Refreshed(d.state, node, m)
    ensures RunUpdates(d, PendingAnswers(d.state.payments, node, m)).changed ==
            d.changed + Stale(d.state.payments, node, m)
  {
    hide *;
    var s := d.state;
    Unfold(d, node, m);
    if m == 0 {
      RefreshZero(s, node);
    } else {
      RefreshPrefix(d, node, m - 1);
      if s.payments[m - 1].IsPending() {
        var answers := PendingAnswers(s.payments, node, m - 1);
        RunUpdatesSnoc(d, answers, node[m - 1]);
        RefreshStep(RunUpdates(d, answers), s, node, m - 1);
      } else {
        RefreshSame(s, node, m - 1);
      }
    }
  }

  lemma NoPanicsSnoc(d: Progress, ps: seq<BasicPayment>, p: BasicPayment)
    ensures NoPanics(d, ps + [p]) <==> NoPanics(d, ps) && !OnePanics(RunUpdates(d, ps).state, p)
  {
    assert (ps + [p])[..|ps|] == ps;
  }

  lemma NoPanicsNone(d: Progress, ps: seq<BasicPayment>)
    requires ps == []
    ensures NoPanics(d, ps)
  {}

  lemma NoneStuckSnoc(s: PaymentDbState, node: seq<BasicPayment>, m: nat)
    requires |s.payments| <= |node|
    ensures NoneStuck(s, node, 0)
    ensures m > 0 ==> (NoneStuck(s, node, m) <==> NoneStuck(s, node, m - 1) && !Stuck(s, node, m - 1))
    ensures 0 < m <= |s.payments| && !s.payments[m - 1].IsPending() ==> !Stuck(s, node, m - 1)
  {}

  /** The run of updates hits an `expect` or an `assert!` exactly when some position is stuck. */
  lemma {:induction false} RefreshPanicsIff(d: Progress, node: seq<BasicPayment>, m: nat)
    requires m <= |d.state.payments| && Usable(d.state)
    requires IsNode(node) && EarlierProjection(d.state.payments, node)
    ensures NoPanics(d, PendingAnswers(d.state.payments, node, m)) <==> NoneStuck(d.state, node, m)
  {
    hide *;
    var s := d.state;
    Unfold(d, node, m);
    NoneStuckSnoc(s, node, m);
    if m == 0 {
      NoPanicsNone(d, PendingAnswers(s.payments, node, m));
    } else {
      RefreshPanicsIff(d, node, m - 1);
      if s.payments[m - 1].IsPending() {
        NoPanicsSnoc(d, PendingAnswers(s.payments, node, m - 1), node[m - 1]);
        RefreshPrefix(d, node, m - 1);
        RefreshOne(s, node, m - 1);
      }
    }
  }

  lemma {:induction false} ByIdsConcat(node: seq<BasicPayment>, a: seq<LxPaymentId>, b: seq<LxPaymentId>)
    ensures ByIds(node, a + b) == ByIds(node, a) + ByIds(node, b)
    decreases |b|
  {
    if b == [] {
      assert a + b == a;
    } else {
      var init, last := b[..|b| - 1], b[|b| - 1];
      ByIdsConcat(node, a, init);
      assert a + b == (a + init) + [last];
      assert b == init + [last];
      ByIdsSnoc(node, a + init, last);
      ByIdsSnoc(node, init, last);
    }
  }

  lemma {:induction false} RunUpdatesConcat(d: Progress, a: seq<BasicPayment>, b: seq<BasicPayment>)
    ensures RunUpdates(d, a + b) == RunUpdates(RunUpdates(d, a), b)
    decreases |b|
  {
    hide StepUpdate;
    if b == [] {
      assert a + b == a;
    } else {
      var init, last := b[..|b| - 1], b[|b| - 1];
      RunUpdatesConcat(d, a, init);
      assert a + b == (a + init) + [last];
      RunUpdatesSnoc(d, a + init, last);
    }
  }

  /** The count of changes is independent of where counting starts. */
  lemma {:induction false} RunUpdatesCount(d: Progress, ps: seq<BasicPayment>)
    ensures RunUpdates(d, ps) ==
            var fromZero := RunUpdates(d.(changed := 0), ps);
            fromZero.(changed := d.changed + fromZero.changed)
  {
    if ps != [] {
      RunUpdatesCount(d, ps[..|ps| - 1]);
    }
  }

  lemma {:induction false} NoPanicsConcat(d: Progress, a: seq<BasicPayment>, b: seq<BasicPayment>)
    ensures NoPanics(d, a + b) <==> NoPanics(d, a) && NoPanics(RunUpdates(d, a), b)
    decreases |b|
  {
    hide *;
    if b == [] {
      assert a + b == a;
      NoPanicsNone(RunUpdates(d, a), b);
    } else {
      var init, last := b[..|b| - 1], b[|b| - 1];
      NoPanicsConcat(d, a, init);
      RunUpdatesConcat(d, a, init);
      assert b == init + [last];
      assert a + b == (a + init) + [last];
      NoPanicsSnoc(d, a + init, last);
      NoPanicsSnoc(RunUpdates(d, a), init, last);
    }
  }

  lemma {:induction false} NoPanicsCount(d: Progress, ps: seq<BasicPayment>)
    ensures NoPanics(d, ps) <==> NoPanics(d.(changed := 0), ps)
  {
    hide RunUpdates, OnePanics;
    if ps != [] {
      NoPanicsCount(d, ps[..|ps| - 1]);
      RunUpdatesCount(d, ps[..|ps| - 1]);
    }
  }

  lemma PendingIdsAre(s: PaymentDbState, node: seq<BasicPayment>) returns (at: seq<nat>)
    requires Usable(s) && IsNode(node) && EarlierProjection(s.payments, node)
    ensures at == Bitmap.Ascending(s.pending) && forall i :: 0 <= i < |at| ==> at[i] < |s.payments|
    ensures ByIds(node, Ids(s.payments, at)) == PendingAnswers(s.payments, node, |s.payments|)
  {
    at := OldestFirst(s.payments, PendingOnly, |s.payments|);
    assert s.payments[..|s.payments|] == s.payments;
    OldestFirstEnumerates(s.payments, PendingOnly, |s.payments|);
    Bitmap.EnumerationUnique(s.pending, at);
    AnswersForIds(s.payments, node, |s.payments|);
  }

  /** One chunk of the pending phase: the run so far grows by the chunk's answers. */
  lemma ChunkStep(d: Progress, node: seq<BasicPayment>, ids: seq<LxPaymentId>, a: nat, b: nat)
    requires a <= b <= |ids|
    ensures var sofar := RunUpdates(d, ByIds(node, ids[..a]));
            && RunUpdates(d, ByIds(node, ids[..b])) == RunUpdates(sofar, ByIds(node, ids[a..b]))
            && (NoPanics(d, ByIds(node, ids[..b])) <==>
                  NoPanics(d, ByIds(node, ids[..a])) && NoPanics(sofar, ByIds(node, ids[a..b])))
            && (NoPanics(d, ByIds(node, ids)) ==> NoPanics(d, ByIds(node, ids[..b])))
  {
    hide *;
    assert ids[..a] + ids[a..b] == ids[..b];
    assert ids[..b] + ids[b..] == ids;
    ByIdsConcat(node, ids[..a], ids[a..b]);
    ByIdsConcat(node, ids[..b], ids[b..]);
    RunUpdatesConcat(d, ByIds(node, ids[..a]), ByIds(node, ids[a..b]));
    NoPanicsConcat(d, ByIds(node, ids[..a]), ByIds(node, ids[a..b]));
    NoPanicsConcat(d, ByIds(node, ids[..b]), ByIds(node, ids[b..]));
  }

  /** Where in the whole run a chunk stopped after `done` of its answers. */
  lemma ChunkPrefix(d: Progress, node: seq<BasicPayment>, ids: seq<LxPaymentId>, a: nat, b: nat, done: nat)
    requires a <= b <= |ids| && done <= |ByIds(node, ids[a..b])|
    ensures var pre, mid, all := ByIds(node, ids[..a]), ByIds(node, ids[a..b]), ByIds(node, ids);
            var k := |pre| + done;
            && k <= |all| && (done < |mid| ==> k < |all| && all[k] == mid[done])
            && RunUpdates(d, all[..k]) == RunUpdates(RunUpdates(d, pre), mid[..done])
            && (NoPanics(d, all[..k]) <==> NoPanics(d, pre) && NoPanics(RunUpdates(d, pre), mid[..done]))
  {
    hide *;
    var pre, mid, post := ByIds(node, ids[..a]), ByIds(node, ids[a..b]), ByIds(node, ids[b..]);
    assert ids[..a] + ids[a..b] == ids[..b];
    assert ids[..b] + ids[b..] == ids;
    ByIdsConcat(node, ids[..a], ids[a..b]);
    ByIdsConcat(node, ids[..b], ids[b..]);
    assert (pre + mid + post)[..|pre| + done] == pre + mid[..done];
    RunUpdatesConcat(d, pre, mid[..done]);
    NoPanicsConcat(d, pre, mid[..done]);
  }

  /** The state after `done` updates of a run that has already counted some changes. */
  lemma CountedPrefix(d: Progress, ps: seq<BasicPayment>, done: nat)
    requires done <= |ps|
    ensures RunUpdates(d, ps[..done]).state == RunUpdates(d.(changed := 0), ps[..done]).state
    ensures RunUpdates(d, ps[..done]).files == RunUpdates(d.(changed := 0), ps[..done]).files
    ensures NoPanics(d, ps[..done]) <==> NoPanics(d.(changed := 0), ps[..done])
    ensures done < |ps| ==> (NoPanics(d, ps[..done + 1]) <==> NoPanics(d.(changed := 0), ps[..done + 1]))
    ensures done < |ps| ==>
              (NoPanics(d, ps[..done + 1]) <==>
                 NoPanics(d, ps[..done]) && !OnePanics(RunUpdates(d, ps[..done]).state, ps[done]))
  {
    hide *;
    RunUpdatesCount(d, ps[..done]);
    NoPanicsCount(d, ps[..done]);
    if done < |ps| {
      NoPanicsCount(d, ps[..done + 1]);
      NoPanicsStep(d, ps, done);
    }
  }

  /** How a pending phase that is not `Ok` ends: after `k` of the answers, with what the next one left behind. */
  ghost predicate StopsAt(d: Progress, all: seq<BasicPayment>, k: nat, r: Run<Result<nat, SyncError>>,
                          s: PaymentDbState, files: Files)
  {
    && k <= |all| && NoPanics(d, all[..k])
    && var sofar := RunUpdates(d, all[..k]);
       match r
       case Returns(Ok(changed)) => k == |all| && Progress(s, files, changed) == sofar
       case Returns(Err(NodeRequestFailed)) => s == sofar.state && files == sofar.files
       case Returns(Err(Persist(WriteFailed))) =>
         && k < |all| && s == sofar.state
         && files - {FileName(all[k])} == sofar.files - {FileName(all[k])}
       case Panics =>
         && k < |all| && OnePanics(sofar.state, all[k])
         && (s, files) == AfterPanic(sofar.state, sofar.files, all[k])
       case _ => false
  }

  lemma Stops(d: Progress, all: seq<BasicPayment>, k: nat, s: PaymentDbState, files: Files)
    requires k <= |all| && NoPanics(d, all[..k])
    ensures var sofar := RunUpdates(d, all[..k]);
            && (s == sofar.state && files == sofar.files ==>
                StopsAt(d, all, k, Returns(Err(NodeRequestFailed)), s, files))
            && (k == |all| ==> StopsAt(d, all, k, Returns(Ok(sofar.changed)), sofar.state, sofar.files))
            && (k < |all| && s == sofar.state && files - {FileName(all[k])} == sofar.files - {FileName(all[k])} ==>
                  StopsAt(d, all, k, Returns(Err(Persist(WriteFailed))), s, files))
            && (k < |all| && OnePanics(sofar.state, all[k]) &&
                (s, files) == AfterPanic(sofar.state, sofar.files, all[k]) ==>
                  StopsAt(d, all, k, Panics, s, files))
  {
    hide RunUpdates, NoPanics, OnePanics, AfterPanic, FileName;
  }

  /** Asks the node about every pending payment, chunk by chunk; `k` answers were applied. */
  method SyncPendingPayments(db: PaymentDb, api: Node, batchSize: nat)
    returns (r: Run<Result<nat, SyncError>>, ghost k: nat)
    requires batchSize > 0 && IsNode(api.payments)
    requires Usable(db.state) && EarlierProjection(db.state.payments, api.payments)
    modifies db, db.ffs, api
    ensures api.failures == old(api.failures) + if r == Returns(Err(NodeRequestFailed)) then 1 else 0
    ensures db.ffs.failures == old(db.ffs.failures) + if r == Returns(Err(Persist(WriteFailed))) then 1 else 0
    ensures StopsAt(old(db.Image()),
                    PendingAnswers(old(db.state.payments), api.payments, |old(db.state.payments)|),
                    k, r, db.state, db.ffs.files)
  {
    hide *;
    var node := api.payments;
    ghost var d0 := db.Image();
    ImageIs(db);
    ghost var at' := PendingIdsAre(db.state, node);
    UsableSorted(db.state);
    var at := Bitmap.Ascending(db.state.pending);
    var ids := Ids(db.state.payments, at);
    ghost var all := ByIds(node, ids);
    RunNothing(d0, node, ids[..0]);
    k := 0;
    if at == [] {
      RunNothing(d0, node, ids);
      assert all[..|all|] == all;
      k := |all|;
      Stops(d0, all, k, db.state, db.ffs.files);
      return Returns(Ok(0)), k;
    }
    var numUpdated, pos := 0, 0;
    while pos < |ids|
      invariant pos <= |ids|
      invariant StrictlySorted(db.state.payments)
      invariant api.failures == old(api.failures) && db.ffs.failures == old(db.ffs.failures)
      invariant NoPanics(d0, ByIds(node, ids[..pos]))
      invariant Progress(db.state, db.ffs.files, numUpdated) == RunUpdates(d0, ByIds(node, ids[..pos]))
    {
      var end := if pos + batchSize <= |ids| then pos + batchSize else |ids|;
      var resp := api.GetPaymentsByIds(ids[pos..end]);
      ghost var mid := ByIds(node, ids[pos..end]);
      ghost var before := Progress(db.state, db.ffs.files, numUpdated);
      ChunkPrefix(d0, node, ids, pos, end, 0);
      CountedPrefix(before, mid, 0);
      RunUpdatesNone(before, mid);
      k := |ByIds(node, ids[..pos])|;
      if resp.None? {
        Stops(d0, all, k, db.state, db.ffs.files);
        return Returns(Err(NodeRequestFailed)), k;
      }
      if |resp.value| > end - pos { return Returns(Err(TooManyPayments)), k; }
      ImageIs(db);
      var updated, done := db.UpdatePendingPayments(resp.value);
      CountedPrefix(before, mid, done);
      ChunkPrefix(d0, node, ids, pos, end, done);
      if updated.Panics? || updated.value.Err? {
        k := k + done;
        Stops(d0, all, k, db.state, db.ffs.files);
        return if updated.Panics? then Panics else Returns(Err(Persist(updated.value.error))), k;
      }
      RunUpdatesCount(before, mid);
      NoPanicsCount(before, mid);
      ChunkStep(d0, node, ids, pos, end);
      numUpdated := numUpdated + updated.value.value;
      pos := end;
    }
    assert ids[..pos] == ids && all[..|all|] == all;
    k := |all|;
    Stops(d0, all, k, db.state, db.ffs.files);
    r := Returns(Ok(numUpdated));
  }

  lemma UsableSorted(s: PaymentDbState)
    requires Usable(s)
    ensures StrictlySorted(s.payments)
  {}

  lemma UsableBounded(s: PaymentDbState)
    requires Usable(s)
    ensures Bounded(s)
  {}

  lemma RunNothing(d: Progress, node: seq<BasicPayment>, ids: seq<LxPaymentId>)
    requires ids == []
    ensures RunUpdates(d, ByIds(node, ids)) == d && NoPanics(d, ByIds(node, ids))
  {}

  // --- The whole sync --- //

  lemma {:induction false} StaleZeroIff(ps: seq<BasicPayment>, node: seq<BasicPayment>, m: nat)
    requires m <= |ps| <= |node|
    ensures Stale(ps, node, m) == 0 <==> ps[..m] == node[..m]
  {
    if m > 0 {
      StaleZeroIff(ps, node, m - 1);
      assert ps[..m] == ps[..m - 1] + [ps[m - 1]];
      assert node[..m] == node[..m - 1] + [node[m - 1]];
    }
  }

  /** Where the database's keys end, the payments after its latest begin. */
  lemma AfterOwnLatest(ps: seq<BasicPayment>, node: seq<BasicPayment>, s: PaymentDbState)
    requires StrictlySorted(node) && EarlierProjection(ps, node) && s.payments == node[..|ps|]
    ensures After(node, s.LatestPaymentIndex()) == node[|ps|..]
  {
    hide PaymentIndex.Less;
    if ps == [] {
      assert node[0..] == node;
    } else {
      hide After;
      var k := AfterIsSuffix(node, s.LatestPaymentIndex());
      var last := node[|ps| - 1].index;
      IndexOrderTotal(last, last, last);
      assert s.LatestPaymentIndex() == Some(last);
      assert |ps| < |node| ==> last.Less(node[|ps|].index);
    }
  }

  /** The bits after a sync: those before, less and plus those that changed, plus those of new payments. */
  function KeptBits(s: PaymentDbState, node: seq<BasicPayment>): set<nat>
    requires |s.payments| <= |node|
  {
    s.pendingNotJunk - Leaving(s, node, |s.payments|) + Shifted(node[|s.payments|..], PendingNotJunk, |s.payments|)
  }

  function FinalizedBits(s: PaymentDbState, node: seq<BasicPayment>): set<nat>
    requires |s.payments| <= |node|
  {
    s.finalizedNotJunk + Joining(s, node, |s.payments|) + Shifted(node[|s.payments|..], FinalizedNotJunk, |s.payments|)
  }

  /** Memory after a sync, in terms of the start and the node alone. */
  function AfterSync(s: PaymentDbState, node: seq<BasicPayment>): PaymentDbState
    requires |s.payments| <= |node|
  {
    PaymentDbState(node, Build(node, PendingOnly), KeptBits(s, node), FinalizedBits(s, node))
  }

  /** The bits of the position are right, or the sync sets them right. */
  predicate WillBeRight(s: PaymentDbState, node: seq<BasicPayment>, i: nat)
    requires i < |s.payments| <= |node|
  {
    && (node[i].IsPendingNotJunk() ==> i in s.pendingNotJunk)
    && (i in s.pendingNotJunk ==> s.payments[i].IsPendingNotJunk() || node[i].IsPendingNotJunk())
    && (s.payments[i].IsFinalized() ==> (i in s.finalizedNotJunk <==> node[i].IsFinalizedNotJunk()))
  }

  ghost predicate FullyIndexed(s: PaymentDbState, node: seq<BasicPayment>) {
    |s.payments| <= |node| && forall i :: 0 <= i < |s.payments| ==> WillBeRight(s, node, i)
  }

  /** No pending payment turned from junk to not junk on the node while still pending. */
  ghost predicate NoUnhandled(ps: seq<BasicPayment>, node: seq<BasicPayment>) {
    |ps| <= |node| && forall i :: 0 <= i < |ps| ==> !UnhandledTransition(ps[i], node[i])
  }

  /** Bit by bit. */
  lemma BitsAre(s: PaymentDbState, node: seq<BasicPayment>, i: nat)
    requires Bounded(s) && |s.payments| <= |node|
    ensures i in KeptBits(s, node) <==>
              if i < |s.payments|
              then i in s.pendingNotJunk && (s.payments[i].IsPendingNotJunk() ==> node[i].IsPendingNotJunk())
              else i < |node| && node[i].IsPendingNotJunk()
    ensures i in FinalizedBits(s, node) <==>
              if i < |s.payments|
              then i in s.finalizedNotJunk || (s.payments[i].IsPending() && node[i].IsFinalizedNotJunk())
              else i < |node| && node[i].IsFinalizedNotJunk()
  {}

  /** The fully refreshed and extended memory is that state, and it is right exactly when fully indexed. */
  lemma FinalState(s: PaymentDbState, node: seq<BasicPayment>)
    requires Usable(s) && IsNode(node) && EarlierProjection(s.payments, node)
    ensures AppendAll(Refreshed(s, node, |s.payments|), node[|s.payments|..]) == AfterSync(s, node)
    ensures Usable(AfterSync(s, node))
    ensures AfterSync(s, node).Consistent() <==> FullyIndexed(s, node)
  {
    hide KeptBits, FinalizedBits, WillBeRight, FullyIndexed;
    AfterSyncIs(s, node);
    KeptAllIff(s, node);
  }

  lemma AfterSyncIs(s: PaymentDbState, node: seq<BasicPayment>)
    requires |s.payments| <= |node|
    ensures AppendAll(Refreshed(s, node, |s.payments|), node[|s.payments|..]) == AfterSync(s, node)
  {
    var n := |s.payments|;
    assert node[..n] + node[n..] == node;
    BuildAppend(node[..n], node[n..], PendingOnly);
    RefreshedAll(s, node);
  }

  /** Both not-junk indexes after a sync are exact exactly when every position will be right. */
  lemma KeptAllIff(s: PaymentDbState, node: seq<BasicPayment>)
    requires Usable(s) && EarlierProjection(s.payments, node)
    ensures KeptBits(s, node) == Build(node, PendingNotJunk) && FinalizedBits(s, node) == Build(node, FinalizedNotJunk)
            <==> FullyIndexed(s, node)
  {
    hide KeptBits, FinalizedBits;
    forall i: nat
      ensures i < |s.payments| ==>
                (WillBeRight(s, node, i) <==>
                 && (i in KeptBits(s, node) <==> i in Build(node, PendingNotJunk))
                 && (i in FinalizedBits(s, node) <==> i in Build(node, FinalizedNotJunk)))
      ensures i >= |s.payments| ==>
                && (i in KeptBits(s, node) <==> i in Build(node, PendingNotJunk))
                && (i in FinalizedBits(s, node) <==> i in Build(node, FinalizedNotJunk))
    {
      BitsAre(s, node, i);
    }
  }

  /** From a consistent start nothing is stuck, and fully indexed means no unhandled transition. */
  lemma ConsistentStart(s: PaymentDbState, node: seq<BasicPayment>)
    requires s.Consistent() && EarlierProjection(s.payments, node)
    ensures Usable(s) && NoneStuck(s, node, |s.payments|)
    ensures FullyIndexed(s, node) <==> NoUnhandled(s.payments, node)
  {
    forall i | 0 <= i < |s.payments| ensures WillBeRight(s, node, i) <==> !UnhandledTransition(s.payments[i], node[i]) {
      assert i in s.pendingNotJunk <==> s.payments[i].IsPendingNotJunk();
      assert i in s.finalizedNotJunk <==> s.payments[i].IsFinalizedNotJunk();
    }
  }

  /** Every successful write that turns no finalized payment pending leaves a state that a sync can start from. */
  lemma WriteKeepsUsable(d: Progress, w: PaymentRead.Write)
    requires Usable(d.state) && PaymentRead.Succeeds(d.state, w)
    requires w.Update? ==>
               forall i :: 0 <= i < |d.state.payments| && d.state.payments[i].index == w.p.index && w.p.IsPending() ==>
                 d.state.payments[i].IsPending()
    ensures Usable(PaymentRead.Effect(d, w).state)
  {
    var s := d.state;
    match w
    case Insert(ps) =>
      SortedAppend(s.payments, ps);
      BuildAppend(s.payments, ps, PendingOnly);
      AppendKeepsBounded(s, ps);
    case Update(p) =>
      var i := Find(s.payments, p.index, |s.payments|).value;
      SortedReplace(s.payments, i, p);
      BuildReplace(s.payments, i, p, PendingOnly);
    case SetNote(index, note) =>
      var i := Find(s.payments, index, |s.payments|).value;
      var p := s.payments[i].(note := note);
      SortedReplace(s.payments, i, p);
      BuildReplace(s.payments, i, p, PendingOnly);
  }

  lemma RefreshedBounded(s: PaymentDbState, node: seq<BasicPayment>)
    requires |s.payments| <= |node| && Bounded(s)
    ensures Bounded(Refreshed(s, node, |s.payments|))
  {}

  /** What an `Ok` sync has achieved. */
  ghost predicate Synced(s0: PaymentDbState, node: seq<BasicPayment>, s: PaymentDbState, files: Files, sum: Summary) {
    && |s0.payments| <= |node| && s == AfterSync(s0, node) && s.payments == node
    && DiskMatches(files, node)
    && (s.Consistent() <==> FullyIndexed(s0, node))
    && sum.numNew == |node| - |s0.payments|
    && (sum.AnyChanges() <==> s0.payments != node)
  }

  lemma BothPhases(d: Progress, node: seq<BasicPayment>)
    requires d.changed == 0 && Usable(d.state) && DiskMatches(d.files, d.state.payments)
    requires IsNode(node) && EarlierProjection(d.state.payments, node)
    ensures var n := |d.state.payments|;
            var mid := RunUpdates(d, PendingAnswers(d.state.payments, node, n));
            var newer := After(node, mid.state.LatestPaymentIndex());
            && Bounded(mid.state) && |mid.state.payments| == n && |newer| == |node| - n
            && Synced(d.state, node, AppendAll(mid.state, newer), WriteAll(mid.files, newer),
                      Summary(mid.changed, |newer|))
  {
    hide AfterSync, Usable, FullyIndexed, AppendAll, Refreshed;
    var s, n := d.state, |d.state.payments|;
    var mid := RunUpdates(d, PendingAnswers(s.payments, node, n));
    RefreshPrefix(d, node, n);
    UsableBounded(s);
    RefreshedBounded(s, node);
    RefreshedAll(s, node);
    AfterOwnLatest(s.payments, node, mid.state);
    FinalState(s, node);
    StaleZeroIff(s.payments, node, n);
    UsableSorted(s);
    PaymentRead.RunUpdatesKeepsMirror(d, PendingAnswers(s.payments, node, n));
    WriteAllKeepsDisk(mid.files, mid.state.payments, node[n..]);
    AfterSyncPayments(s, node);
  }

  lemma AfterSyncPayments(s: PaymentDbState, node: seq<BasicPayment>)
    requires |s.payments| <= |node|
    ensures AfterSync(s, node).payments == node
  {}

  lemma RefreshedAll(s: PaymentDbState, node: seq<BasicPayment>)
    requires |s.payments| <= |node|
    ensures Refreshed(s, node, |s.payments|).payments == node[..|s.payments|]
    ensures node[..|s.payments|] + node[|s.payments|..] == node
    ensures s.payments[..|s.payments|] == s.payments
  {}

  // --- Syncs that stop early --- //

  /**
   * The answers up to any point are those for a prefix of the positions, and the next one is that of
   * the next position.
   */
  lemma {:induction false} AnswersPrefix(ps: seq<BasicPayment>, node: seq<BasicPayment>, n: nat, k: nat)
    returns (m: nat)
    requires n <= |ps| <= |node| && k <= |PendingAnswers(ps, node, n)|
    ensures m <= n && PendingAnswers(ps, node, n)[..k] == PendingAnswers(ps, node, m)
    ensures k < |PendingAnswers(ps, node, n)| ==>
              m < n && ps[m].IsPending() && PendingAnswers(ps, node, n)[k] == node[m]
    decreases n
  {
    var all := PendingAnswers(ps, node, n);
    if k == |all| {
      m := n;
    } else {
      var init := PendingAnswers(ps, node, n - 1);
      if k < |init| {
        m := AnswersPrefix(ps, node, n - 1, k);
        assert all[..k] == init[..k];
      } else {
        m := n - 1;
      }
    }
  }

  /** A later sync against the same node is legal and ends in the same memory, or panics if this one would have. */
  ghost predicate SameGoal(s0: PaymentDbState, s: PaymentDbState, node: seq<BasicPayment>)
    requires |s0.payments| <= |node|
  {
    && Usable(s) && EarlierProjection(s.payments, node)
    && AfterSync(s, node) == AfterSync(s0, node)
    && (NoneStuck(s, node, |s.payments|) <==> NoneStuck(s0, node, |s0.payments|))
  }

  lemma RefreshedTwice(s: PaymentDbState, node: seq<BasicPayment>, m: nat)
    requires m <= |s.payments| <= |node|
    ensures var n, t := |s.payments|, Refreshed(s, node, m);
            && Refreshed(t, node, n).payments == Refreshed(s, node, n).payments
            && t.pendingNotJunk - Leaving(t, node, n) == s.pendingNotJunk - Leaving(s, node, n)
            && t.finalizedNotJunk + Joining(t, node, n) == s.finalizedNotJunk + Joining(s, node, n)
  {
    var n, t := |s.payments|, Refreshed(s, node, m);
    assert forall i :: 0 <= i < n ==> t.payments[i] == if i < m then node[i] else s.payments[i];
    assert Leaving(s, node, n) == Leaving(s, node, m) + Leaving(t, node, n);
    assert Joining(s, node, n) == Joining(s, node, m) + Joining(t, node, n);
  }

  /** Stopping after any part of the pending phase ... */
  lemma RefreshedAgain(s: PaymentDbState, node: seq<BasicPayment>, m: nat)
    requires Usable(s) && IsNode(node) && EarlierProjection(s.payments, node)
    requires m <= |s.payments| && NoneStuck(s, node, m)
    ensures SameGoal(s, Refreshed(s, node, m), node)
  {
    var t := Refreshed(s, node, m);
    RefreshedSorted(s, node, m);
    RefreshedTwice(s, node, m);
    assert forall i :: 0 <= i < |t.payments| ==> t.payments[i] == if i < m then node[i] else s.payments[i];
    assert forall i :: m <= i < |s.payments| ==> (Stuck(t, node, i) <==> Stuck(s, node, i));
    assert forall i :: 0 <= i < m ==> !Stuck(t, node, i);
  }

  /** ... or of the new-payments phase. */
  lemma AppendedAgain(s: PaymentDbState, node: seq<BasicPayment>, k: nat)
    requires Usable(s) && IsNode(node) && EarlierProjection(s.payments, node)
    requires |s.payments| + k <= |node| && NoneStuck(s, node, |s.payments|)
    ensures var n := |s.payments|;
            SameGoal(s, AppendAll(Refreshed(s, node, n), node[n..n + k]), node)
  {
    hide AppendAll, AfterSync, Refreshed, Usable, Stuck;
    var n := |s.payments|;
    var mid := Refreshed(s, node, n);
    var t := AppendAll(mid, node[n..n + k]);
    RefreshedAgain(s, node, n);
    RefreshedAll(s, node);
    AppendedUsable(mid, node, k);
    AppendAllTwice(mid, node[n..n + k], node[n + k..]);
    assert node[n..n + k] + node[n + k..] == node[n..];
    AfterSyncIs(s, node);
    AfterSyncIs(t, node);
    UpToDate(t, node);
  }

  lemma AppendedUsable(s: PaymentDbState, node: seq<BasicPayment>, k: nat)
    requires Usable(s) && StrictlySorted(node) && |s.payments| + k <= |node| && s.payments == node[..|s.payments|]
    ensures var n := |s.payments|;
            var t := AppendAll(s, node[n..n + k]);
            Usable(t) && t.payments == node[..n + k]
  {
    var n := |s.payments|;
    assert node[..n] + node[n..n + k] == node[..n + k];
    BuildAppend(node[..n], node[n..n + k], PendingOnly);
    AppendKeepsBounded(s, node[n..n + k]);
  }

  /** Refreshing what is up to date changes nothing, and nothing is stuck. */
  lemma UpToDate(t: PaymentDbState, node: seq<BasicPayment>)
    requires Usable(t) && |t.payments| <= |node| && t.payments == node[..|t.payments|]
    ensures Refreshed(t, node, |t.payments|) == t && NoneStuck(t, node, |t.payments|)
    ensures EarlierProjection(t.payments, node)
  {
    var n := |t.payments|;
    assert forall i :: 0 <= i < n ==> t.payments[i] == node[i];
    assert Leaving(t, node, n) == {} && Joining(t, node, n) == {};
  }

  /** The stop of the pending phase, in terms of positions. */
  lemma PendingStop(d: Progress, node: seq<BasicPayment>, k: nat, r: Run<Result<nat, SyncError>>,
                    s: PaymentDbState, files: Files)
    requires Usable(d.state) && DiskMatches(d.files, d.state.payments)
    requires IsNode(node) && EarlierProjection(d.state.payments, node)
    requires StopsAt(d, PendingAnswers(d.state.payments, node, |d.state.payments|), k, r, s, files)
    ensures r.Returns? && r.value.Ok? ==> NoneStuck(d.state, node, |d.state.payments|)
    ensures r == Returns(Err(NodeRequestFailed)) ==> SameGoal(d.state, s, node) && DiskMatches(files, s.payments)
    ensures r.Panics? ==>
              exists m :: 0 <= m < |d.state.payments| && Stuck(d.state, node, m)
                          && DiskMatches(files, Refreshed(d.state, node, m + 1).payments)
  {
    hide Refreshed, Usable, Stuck, SameGoal, DiskMatches, RunUpdates, NoPanics, OnePanics, StepUpdate, AfterPanic,
        FileName;
    var n := |d.state.payments|;
    var all := PendingAnswers(d.state.payments, node, n);
    var m := AnswersPrefix(d.state.payments, node, n, k);
    var sofar := RunUpdates(d, all[..k]);
    RefreshPrefix(d, node, m);
    RefreshPanicsIff(d, node, m);
    UsableSorted(d.state);
    PaymentRead.RunUpdatesKeepsMirror(d, all[..k]);
    RefreshedAgain(d.state, node, m);
    if r.Returns? && r.value.Ok? {
      assert all[..k] == all;
      RefreshPanicsIff(d, node, n);
    }
    if r.Panics? {
      RefreshOne(d.state, node, m);
      RefreshStep(sofar, d.state, node, m);
      PaymentRead.StepKeepsMirror(sofar, node[m]);
      PanicFiles(sofar, node[m]);
    }
  }

  /** A panic of an update that has something to change leaves the file that the update would have left. */
  lemma PanicFiles(d: Progress, p: BasicPayment)
    requires OnePanics(d.state, p)
    ensures AfterPanic(d.state, d.files, p).1 == StepUpdate(d, p).files
  {}

  /**
   * After a panic the app restarts from disk, and what it reads is a start from which the sync gets
   * further without panic.
   */
  lemma ReloadAfterPanic(s: PaymentDbState, node: seq<BasicPayment>, m: nat)
    requires Usable(s) && IsNode(node) && EarlierProjection(s.payments, node) && m <= |s.payments|
    ensures var t := Rebuild(Refreshed(s, node, m).payments);
            && t.Consistent() && EarlierProjection(t.payments, node)
            && Usable(t) && NoneStuck(t, node, |t.payments|)
  {
    RefreshedSorted(s, node, m);
    ConsistentStart(Rebuild(Refreshed(s, node, m).payments), node);
  }

  /**
   * Against a fixed node and a database that is an earlier projection of it,
   * as earlier writes and syncs leave it: an `Ok` sync leaves memory and disk
   * equal to the node, whatever the batch size, and reports a change exactly
   * when there was one. It panics only if some payment is stuck, and is never
   * `Ok` then, and fails only if a request or a write failed. After a failed
   * request, disk mirrors memory and a later sync has the same goal; after a
   * panic, disk mirrors the part refreshed so far.
   */
  method SyncPayments(db: PaymentDb, api: Node, batchSize: nat)
    returns (r: Run<Result<Summary, SyncError>>)
    requires batchSize > 0 && IsNode(api.payments)
    requires Usable(db.state) && DiskMatches(db.ffs.files, db.state.payments)
    requires EarlierProjection(db.state.payments, api.payments)
    requires |api.payments| < MAX_PAYMENTS
    modifies db, db.ffs, api
    ensures r.Returns? && r.value.Ok? ==> NoneStuck(old(db.state), api.payments, |old(db.state.payments)|)
    ensures r.Returns? && r.value.Ok? ==> Synced(old(db.state), api.payments, db.state, db.ffs.files, r.value.value)
    ensures r.Returns? && r.value.Err? ==> r.value.error == NodeRequestFailed || r.value.error == Persist(WriteFailed)
    ensures api.failures == old(api.failures) + if r == Returns(Err(NodeRequestFailed)) then 1 else 0
    ensures db.ffs.failures == old(db.ffs.failures) + if r == Returns(Err(Persist(WriteFailed))) then 1 else 0
    ensures r == Returns(Err(NodeRequestFailed)) ==>
              SameGoal(old(db.state), db.state, api.payments) && DiskMatches(db.ffs.files, db.state.payments)
    ensures r.Panics? ==>
              exists m :: 0 <= m < |old(db.state.payments)| && Stuck(old(db.state), api.payments, m)
                          && DiskMatches(db.ffs.files, Refreshed(old(db.state), api.payments, m + 1).payments)
  {
    hide *;
    var node := api.payments;
    ghost var d0 := db.Image();
    ImageIs(db);
    BothPhases(d0, node);
    NodeSorted(node);
    var updated, k := SyncPendingPayments(db, api, batchSize);
    PendingStop(d0, node, k, updated, db.state, db.ffs.files);
    StopIs(d0, PendingAnswers(d0.state.payments, node, |d0.state.payments|), k, updated, db.state, db.ffs.files);
    if updated.Panics? { return Panics; }
    if updated.value.Err? { return Returns(Err(updated.value.error)); }
    ghost var mid := db.Image();
    ImageIs(db);
    var new', added, reached := SyncNewPayments(db, api, batchSize);
    if new'.Err? {
      if new'.error == NodeRequestFailed { NewStop(d0, mid, node, added); }
      return Returns(Err(new'.error));
    }
    r := Returns(Ok(Summary(updated.value.value, new'.value)));
  }

  lemma StopIs(d: Progress, all: seq<BasicPayment>, k: nat, r: Run<Result<nat, SyncError>>,
               s: PaymentDbState, files: Files)
    requires StopsAt(d, all, k, r, s, files)
    ensures r.Returns? && r.value.Ok? ==> Progress(s, files, r.value.value) == RunUpdates(d, all)
    ensures r.Returns? && r.value.Err? ==> r.value.error == NodeRequestFailed || r.value.error == Persist(WriteFailed)
  {
    hide RunUpdates, NoPanics, OnePanics, AfterPanic, FileName;
    assert k == |all| ==> all[..k] == all;
  }

  /** The stop of the new-payments phase after a failed request. */
  lemma NewStop(d: Progress, mid: Progress, node: seq<BasicPayment>, added: nat)
    requires d.changed == 0 && Usable(d.state) && DiskMatches(d.files, d.state.payments)
    requires IsNode(node) && EarlierProjection(d.state.payments, node)
    requires NoneStuck(d.state, node, |d.state.payments|)
    requires var end := RunUpdates(d, PendingAnswers(d.state.payments, node, |d.state.payments|));
             mid.state == end.state && mid.files == end.files
    requires added <= |After(node, mid.state.LatestPaymentIndex())|
    ensures var part := After(node, mid.state.LatestPaymentIndex())[..added];
            && SameGoal(d.state, AppendAll(mid.state, part), node)
            && DiskMatches(WriteAll(mid.files, part), AppendAll(mid.state, part).payments)
  {
    hide RunUpdates, After, AfterSync, Usable, SameGoal, Refreshed, DiskMatches, WriteAll, AppendAll, Stuck;
    var s, n := d.state, |d.state.payments|;
    RefreshPrefix(d, node, n);
    RefreshedAll(s, node);
    AfterOwnLatest(s.payments, node, mid.state);
    assert node[n..][..added] == node[n..n + added];
    AppendedAgain(s, node, added);
    UsableSorted(s);
    PaymentRead.RunUpdatesKeepsMirror(d, PendingAnswers(s.payments, node, n));
    assert node[..n] + node[n..n + added] == node[..n + added];
    PrefixOfNode(node, n + added);
    WriteAllKeepsDisk(mid.files, mid.state.payments, node[n..n + added]);
    AppendedPayments(mid.state, node[n..n + added]);
  }

  lemma AppendedPayments(s: PaymentDbState, ps: seq<BasicPayment>)
    ensures AppendAll(s, ps).payments == s.payments + ps
  {}

  lemma PrefixOfNode(node: seq<BasicPayment>, k: nat)
    requires IsNode(node) && k <= |node|
    ensures StrictlySorted(node[..k])
  {}

  lemma NodeSorted(node: seq<BasicPayment>)
    requires IsNode(node)
    ensures StrictlySorted(node)
  {}

  // --- Sequences of syncs --- //

  /**
   * What the database held at first, then what the node held at each sync: every vector an earlier
   * projection of the next.
   */
  ghost predicate History(hist: seq<seq<BasicPayment>>) {
    hist != [] && forall j :: 0 < j < |hist| ==> IsNode(hist[j]) && EarlierProjection(hist[j - 1], hist[j])
  }

  /** Memory after the first `j` syncs. */
  ghost function StateAt(s0: PaymentDbState, hist: seq<seq<BasicPayment>>, j: nat): (s: PaymentDbState)
    requires History(hist) && hist[0] == s0.payments && j < |hist|
    ensures s.payments == hist[j]
  {
    if j == 0 then s0 else AfterSync(StateAt(s0, hist, j - 1), hist[j])
  }

  /** The payment has been pending and not junk ever since the database has it. */
  ghost predicate AlwaysNotJunk(hist: seq<seq<BasicPayment>>, j: nat, m: nat) {
    forall a :: 0 <= a <= j && a < |hist| && m < |hist[a]| ==> hist[a][m].IsPendingNotJunk()
  }

  lemma {:induction false} HistoryGrows(hist: seq<seq<BasicPayment>>, a: nat, j: nat)
    requires History(hist) && a <= j < |hist|
    ensures |hist[a]| <= |hist[j]|
    decreases j
  {
    if a < j { HistoryGrows(hist, a, j - 1); }
  }

  lemma AlwaysSnoc(hist: seq<seq<BasicPayment>>, j: nat, m: nat)
    requires History(hist) && 0 < j < |hist| && m < |hist[j]|
    ensures AlwaysNotJunk(hist, j, m) <==>
              hist[j][m].IsPendingNotJunk() && (m < |hist[j - 1]| ==> AlwaysNotJunk(hist, j - 1, m))
    ensures m < |hist[j - 1]| && AlwaysNotJunk(hist, j - 1, m) ==> hist[j - 1][m].IsPendingNotJunk()
  {
    if m >= |hist[j - 1]| {
      forall a | 0 <= a < j ensures |hist[a]| <= m { HistoryGrows(hist, a, j - 1); }
    }
  }

  /**
   * After any number of syncs from a consistent start: exactly the payments that always were not junk
   * have their bit.
   */
  lemma {:induction false} BitsAfterSyncs(s0: PaymentDbState, hist: seq<seq<BasicPayment>>, j: nat)
    requires s0.Consistent() && History(hist) && hist[0] == s0.payments && j < |hist|
    ensures var s := StateAt(s0, hist, j);
            && Usable(s) && s.finalizedNotJunk == Build(hist[j], FinalizedNotJunk)
            && forall m: nat :: m in s.pendingNotJunk <==> m < |hist[j]| && AlwaysNotJunk(hist, j, m)
  {
    hide Usable, AlwaysNotJunk, KeptBits, FinalizedBits;
    if j == 0 {
      FirstBits(s0, hist);
    } else {
      BitsAfterSyncs(s0, hist, j - 1);
      var s, s' := StateAt(s0, hist, j - 1), StateAt(s0, hist, j);
      assert EarlierProjection(hist[j - 1], hist[j]);
      FinalState(s, hist[j]);
      UsableBounded(s);
      forall m: nat ensures m in s'.pendingNotJunk <==> m < |hist[j]| && AlwaysNotJunk(hist, j, m) {
        BitsAre(s, hist[j], m);
        if m < |hist[j]| { AlwaysSnoc(hist, j, m); }
      }
    }
  }

  lemma FirstBits(s0: PaymentDbState, hist: seq<seq<BasicPayment>>)
    requires s0.Consistent() && History(hist) && hist[0] == s0.payments
    ensures Usable(s0) && s0.finalizedNotJunk == Build(hist[0], FinalizedNotJunk)
    ensures forall m: nat :: m in s0.pendingNotJunk <==> m < |hist[0]| && AlwaysNotJunk(hist, 0, m)
  {}

  /** So the indexes are right exactly when no payment came out of junk while pending. */
  lemma SyncsConsistentIff(s0: PaymentDbState, hist: seq<seq<BasicPayment>>, j: nat)
    requires s0.Consistent() && History(hist) && hist[0] == s0.payments && j < |hist|
    ensures StateAt(s0, hist, j).Consistent() <==>
              forall m :: 0 <= m < |hist[j]| && hist[j][m].IsPendingNotJunk() ==> AlwaysNotJunk(hist, j, m)
  {
    hide StateAt, AlwaysNotJunk;
    BitsAfterSyncs(s0, hist, j);
    var s := StateAt(s0, hist, j);
    forall m: nat ensures m in s.pendingNotJunk ==> m in Build(hist[j], PendingNotJunk) {
      if m in s.pendingNotJunk { AlwaysIsNow(hist, j, m); }
    }
    if s.Consistent() {
      forall m | 0 <= m < |hist[j]| && hist[j][m].IsPendingNotJunk() ensures AlwaysNotJunk(hist, j, m) {
        assert m in s.pendingNotJunk;
      }
    }
  }

  lemma AlwaysIsNow(hist: seq<seq<BasicPayment>>, j: nat, m: nat)
    requires j < |hist| && m < |hist[j]| && AlwaysNotJunk(hist, j, m)
    ensures hist[j][m].IsPendingNotJunk()
  {}

  /** Came out of junk between two earlier syncs, and stops being pending and not junk now. */
  ghost predicate Relapses(hist: seq<seq<BasicPayment>>, j: nat, m: nat)
    requires 0 < j < |hist|
  {
    && m < |hist[j - 1]| && m < |hist[j]|
    && !AlwaysNotJunk(hist, j - 1, m) && hist[j - 1][m].IsPendingNotJunk() && !hist[j][m].IsPendingNotJunk()
  }

  /** Which payments make the `j`-th sync hit the `assert!`, in terms of what the node reported over time. */
  lemma StuckIff(s0: PaymentDbState, hist: seq<seq<BasicPayment>>, j: nat, m: nat)
    requires s0.Consistent() && History(hist) && hist[0] == s0.payments && 0 < j < |hist|
    ensures |StateAt(s0, hist, j - 1).payments| <= |hist[j]|
    ensures Stuck(StateAt(s0, hist, j - 1), hist[j], m) <==> Relapses(hist, j, m)
  {
    hide AlwaysNotJunk, StateAt;
    BitsAfterSyncs(s0, hist, j - 1);
    assert EarlierProjection(hist[j - 1], hist[j]);
  }

  /** The `j`-th sync meets a stuck payment exactly when one leaves pending-not-junk after having come out of junk. */
  lemma NthSyncPanicsIff(s0: PaymentDbState, hist: seq<seq<BasicPayment>>, j: nat)
    requires s0.Consistent() && History(hist) && hist[0] == s0.payments && 0 < j < |hist|
    ensures var s := StateAt(s0, hist, j - 1);
            && Usable(s) && EarlierProjection(s.payments, hist[j])
            && (NoneStuck(s, hist[j], |s.payments|) <==> forall m: nat :: !Relapses(hist, j, m))
  {
    hide AlwaysNotJunk, StateAt, Relapses, Usable, Stuck;
    BitsAfterSyncs(s0, hist, j - 1);
    var s := StateAt(s0, hist, j - 1);
    assert EarlierProjection(hist[j - 1], hist[j]);
    forall m: nat ensures Stuck(s, hist[j], m) <==> Relapses(hist, j, m) { StuckIff(s0, hist, j, m); }
    OnlyOwnStuck(s, hist[j]);
  }

  lemma OnlyOwnStuck(s: PaymentDbState, node: seq<BasicPayment>)
    requires |s.payments| <= |node|
    ensures NoneStuck(s, node, |s.payments|) <==> forall m: nat :: !Stuck(s, node, m)
  {}

  /** The shortest way there: out of junk in one sync, finalized in the next. */
  lemma SyncThenFinalizePanics(s0: PaymentDbState, first: seq<BasicPayment>, second: seq<BasicPayment>, i: nat)
    requires s0.Consistent() && i < |s0.payments| <= |first| <= |second|
    requires EarlierProjection(s0.payments, first) && UnhandledTransition(s0.payments[i], first[i])
    requires second[i].IsFinalized()
    ensures Stuck(AfterSync(s0, first), second, i)
  {}
}
