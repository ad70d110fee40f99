/**
 * The app's payment database: in-memory state plus one file per payment
 * (app-rs/src/payments.rs, `PaymentDb`; app-rs/src/ffs.rs).
 */
module PaymentDatabase {
  import opened Wrappers
  import opened Payments
  import opened DbState
  import StrictOrder
  import Name = PaymentIndexName

  /** What a file holds: a payment that deserializes, or bytes that do not. */
  datatype FileData = PaymentJson(payment: BasicPayment) | Unreadable

  type Files = map<string, FileData>

  datatype IoError = NotSortedOrUnique | OlderThanDb | AlreadyIndexed | WriteFailed

  /** A flat directory of files. A failed write may leave its own file in any state, and no other. */
  class Ffs {
    var files: Files
    /** How many writes have failed. */
    ghost var failures: nat

    constructor (files: Files)
      ensures this.files == files && failures == 0
    {
      this.files := files;
      failures := 0;
    }

    method Write(name: string, data: FileData) returns (ok: bool)
      modifies this
      ensures ok ==> files == old(files)[name := data]
      ensures !ok ==> files - {name} == old(files) - {name}
      ensures failures == old(failures) + if ok then 0 else 1
    {
      ok := *;
      failures := if ok then failures else failures + 1;
      var torn: bool := *;
      if ok {
        files := files[name := data];
      } else if torn {
        files := files[name := Unreadable];
      }
    }
  }

  // --- Disk --- //

  function FileName(p: BasicPayment): string { Name.Format(p.index) }

  /** The directory after writing every payment of the batch. */
  function WriteAll(files: Files, ps: seq<BasicPayment>): Files
  {
    if ps == [] then files
    else
      var last := ps[|ps| - 1];
      WriteAll(files, ps[..|ps| - 1])[FileName(last) := PaymentJson(last)]
  }

  /** Disk equals memory: one canonical file per payment; other files only under unrecognized names. */
  ghost predicate DiskMatches(files: Files, payments: seq<BasicPayment>) {
    && (forall p :: p in payments ==> FileName(p) in files && files[FileName(p)] == PaymentJson(p))
    && (forall name :: name in files && Name.Parse(name).Some? ==>
          exists p :: p in payments && name == FileName(p))
  }

  ghost predicate Newer(s: PaymentDbState, ps: seq<BasicPayment>) {
    s.payments == [] || ps == [] || s.payments[|s.payments| - 1].index.Less(ps[0].index)
  }

  lemma DiskMatchesSnoc(files: Files, payments: seq<BasicPayment>, p: BasicPayment)
    requires DiskMatches(files, payments)
    requires forall q :: q in payments ==> q.index != p.index
    ensures DiskMatches(files[FileName(p) := PaymentJson(p)], payments + [p])
  {
    var files' := files[FileName(p) := PaymentJson(p)];
    forall q | q in payments + [p] ensures FileName(q) in files' && files'[FileName(q)] == PaymentJson(q) {
      if q in payments && FileName(q) == FileName(p) {
        Name.FormatInjective(q.index, p.index);
      }
    }
    forall name | name in files' && Name.Parse(name).Some?
      ensures exists q :: q in payments + [p] && name == FileName(q)
    {
      if name == FileName(p) {
        assert p in payments + [p];
      } else {
        var q :| q in payments && name == FileName(q);
        assert q in payments + [p];
      }
    }
  }

  lemma {:induction false} WriteAllKeepsDisk(files: Files, payments: seq<BasicPayment>, ps: seq<BasicPayment>)
    requires DiskMatches(files, payments) && StrictlySorted(payments + ps)
    ensures DiskMatches(WriteAll(files, ps), payments + ps)
  {
    if ps == [] {
      assert payments + ps == payments;
    } else {
      var init, last := ps[..|ps| - 1], ps[|ps| - 1];
      assert payments + ps == (payments + init) + [last];
      assert StrictlySorted(payments + init) by {
        assert forall i :: 0 <= i < |payments + init| ==> (payments + init)[i] == (payments + ps)[i];
      }
      WriteAllKeepsDisk(files, payments, init);
      forall q | q in payments + init ensures q.index != last.index {
        var i :| 0 <= i < |payments + init| && (payments + init)[i] == q;
        assert (payments + ps)[i] == q && (payments + ps)[|payments + ps| - 1] == last;
      }
      DiskMatchesSnoc(WriteAll(files, init), payments + init, last);
    }
  }

  // --- Inserting --- //

  predicate ShiftedAt(ps: seq<BasicPayment>, f: Filter, base: nat, i: nat) {
    base <= i < base + |ps| && f.Matches(ps[i - base])
  }

  /** Bitmap bits of a batch whose first payment gets position `base`. */
  function Shifted(ps: seq<BasicPayment>, f: Filter, base: nat): set<nat>
  {
    set i: nat | i < base + |ps| && ShiftedAt(ps, f, base, i)
  }

  /** The bitmaps extended by a batch, the vector not yet. */
  function IndexedOnly(s: PaymentDbState, ps: seq<BasicPayment>): PaymentDbState
  {
    s.(pending := s.pending + Shifted(ps, PendingOnly, |s.payments|),
       pendingNotJunk := s.pendingNotJunk + Shifted(ps, PendingNotJunk, |s.payments|),
       finalizedNotJunk := s.finalizedNotJunk + Shifted(ps, FinalizedNotJunk, |s.payments|))
  }

  function AppendAll(s: PaymentDbState, ps: seq<BasicPayment>): PaymentDbState
  {
    IndexedOnly(s, ps).(payments := s.payments + ps)
  }

  /** The bits of one payment set at one position. */
  function WithBits(s: PaymentDbState, v: nat, p: BasicPayment): PaymentDbState
  {
    s.(pending := if p.IsPending() then s.pending + {v} else s.pending,
       pendingNotJunk := if p.IsPendingNotJunk() then s.pendingNotJunk + {v} else s.pendingNotJunk,
       finalizedNotJunk := if p.IsFinalizedNotJunk() then s.finalizedNotJunk + {v} else s.finalizedNotJunk)
  }

  /** Some bit that inserting `p` at `vecIdx` would set is already set. */
  predicate Conflict(s: PaymentDbState, vecIdx: nat, p: BasicPayment) {
    || (p.IsPending() && vecIdx in s.pending)
    || (p.IsPendingNotJunk() && vecIdx in s.pendingNotJunk)
    || (p.IsFinalizedNotJunk() && vecIdx in s.finalizedNotJunk)
  }

  /** What a conflict leaves: only the pending bit is set before any other can clash. */
  function ConflictBits(s: PaymentDbState, v: nat, p: BasicPayment): PaymentDbState {
    if p.IsPending() then s.(pending := s.pending + {v}) else s
  }

  ghost predicate NoConflicts(s: PaymentDbState, ps: seq<BasicPayment>, k: nat)
    requires k <= |ps|
  {
    forall j :: 0 <= j < k ==> !Conflict(s, |s.payments| + j, ps[j])
  }

  lemma SortedAppend(a: seq<BasicPayment>, b: seq<BasicPayment>)
    requires StrictlySorted(a) && StrictlySorted(b)
    requires a == [] || b == [] || a[|a| - 1].index.Less(b[0].index)
    ensures StrictlySorted(a + b)
  {}

  lemma BuildAppend(a: seq<BasicPayment>, b: seq<BasicPayment>, f: Filter)
    ensures Build(a + b, f) == Build(a, f) + Shifted(b, f, |a|)
  {}

  /** Appending a sorted, newer batch keeps the vector sorted and the bitmaps equal to rebuilt ones. */
  lemma AppendKeepsConsistent(s: PaymentDbState, ps: seq<BasicPayment>)
    requires s.Consistent() && StrictlySorted(ps) && Newer(s, ps)
    ensures AppendAll(s, ps) == Rebuild(s.payments + ps)
    ensures AppendAll(s, ps).Consistent()
  {}

  /** The payment sets a bit in some index: all but finalized junk do. */
  predicate Indexed(p: BasicPayment) { p.IsPending() || p.IsFinalizedNotJunk() }

  lemma ConflictAfterFailure(s: PaymentDbState, ps: seq<BasicPayment>, written: nat, j: nat)
    requires s.Consistent() && written < |ps| && j < |ps|
    ensures Conflict(IndexedOnly(s, ps[..written + 1]), |s.payments| + j, ps[j]) <==> j <= written && Indexed(ps[j])
  {}

  /**
   * A failed disk write leaves bits past the end of the vector: the same batch
   * can be inserted again before a reload exactly when everything it had
   * reached is finalized junk.
   */
  lemma FailedInsertBlocksRetry(s: PaymentDbState, ps: seq<BasicPayment>, written: nat)
    requires s.Consistent() && written < |ps|
    ensures NoConflicts(IndexedOnly(s, ps[..written + 1]), ps, |ps|) <==>
              forall j :: 0 <= j <= written ==> !Indexed(ps[j])
  {
    hide Conflict, IndexedOnly;
    var t := IndexedOnly(s, ps[..written + 1]);
    assert t.payments == s.payments by { InsertStep(s, ps, written); }
    forall j | 0 <= j < |ps| ensures Conflict(t, |s.payments| + j, ps[j]) <==> j <= written && Indexed(ps[j]) {
      ConflictAfterFailure(s, ps, written, j);
    }
  }

  /** A pending bit past the end makes the lookup of the newest pending payment index past the vector. */
  lemma StrayBitBreaksLookup(t: PaymentDbState, asc: seq<nat>, bit: nat)
    requires Bitmap.Enumerates(asc, t.pending) && bit in t.pending && |t.payments| <= bit
    ensures t.GetPending(0).Panics?
  {
    var i :| 0 <= i < |asc| && asc[i] == bit;
    assert i == |asc| - 1 || asc[i] < asc[|asc| - 1];
    Bitmap.SelectEnumeration(t.pending, asc, |asc| - 1);
  }

  /** ... and the lookup of the newest pending payment panics exactly when the batch had reached a pending one. */
  lemma FailedInsertBreaksLookup(s: PaymentDbState, ps: seq<BasicPayment>, written: nat)
    requires s.Consistent() && written < |ps|
    ensures IndexedOnly(s, ps[..written + 1]).GetPending(0).Panics? <==>
              exists j :: 0 <= j <= written && ps[j].IsPending()
  {
    hide PaymentDbState.GetPending;
    var t := IndexedOnly(s, ps[..written + 1]);
    if j :| 0 <= j <= written && ps[j].IsPending() {
      var all := s.payments + ps[..written + 1];
      BuildAppend(s.payments, ps[..written + 1], PendingOnly);
      BuiltEnumeration(all, PendingOnly);
      assert ShiftedAt(ps[..written + 1], PendingOnly, |s.payments|, |s.payments| + j);
      StrayBitBreaksLookup(t, OldestFirst(all, PendingOnly, |all|), |s.payments| + j);
    } else {
      assert t.pending == s.pending;
      PendingLookupReturns(t);
    }
  }

  lemma PendingLookupReturns(t: PaymentDbState)
    requires t.pending == Build(t.payments, PendingOnly)
    ensures t.GetPending(0).Returns?
  {
    ReverseRankIsNaive(t, PendingOnly, 0);
  }

  // --- Updating --- //

  /** What `update_pending_payment` does to the state when nothing panics. */
  function ApplyUpdate(s: PaymentDbState, i: nat, p: BasicPayment): PaymentDbState
    requires i < |s.payments|
  {
    var e := s.payments[i];
    PaymentDbState(
      s.payments[i := p],
      if e.IsPending() && !p.IsPending() then s.pending - {i} else s.pending,
      if e.IsPendingNotJunk() && !p.IsPendingNotJunk() then s.pendingNotJunk - {i} else s.pendingNotJunk,
      if !e.IsFinalizedNotJunk() && p.IsFinalizedNotJunk() then s.finalizedNotJunk + {i} else s.finalizedNotJunk)
  }

  /** One of the three `assert!`s on the bitmaps fires. */
  predicate UpdatePanics(s: PaymentDbState, i: nat, p: BasicPayment)
    requires i < |s.payments|
  {
    var e := s.payments[i];
    || (e.IsPending() && !p.IsPending() && i !in s.pending)
    || (e.IsPendingNotJunk() && !p.IsPendingNotJunk() && i !in s.pendingNotJunk)
    || (!e.IsFinalizedNotJunk() && p.IsFinalizedNotJunk() && i in s.finalizedNotJunk)
  }

  /** What a failed `assert!` leaves: the file is written, the bits before the assert are changed, the vector is not. */
  function PanicBits(s: PaymentDbState, i: nat, p: BasicPayment): PaymentDbState
    requires i < |s.payments|
  {
    var e := s.payments[i];
    var leavesPending := e.IsPending() && !p.IsPending();
    s.(pending := if leavesPending then s.pending - {i} else s.pending,
       pendingNotJunk := if e.IsPendingNotJunk() && !p.IsPendingNotJunk() && !(leavesPending && i !in s.pending)
                         then s.pendingNotJunk - {i} else s.pendingNotJunk)
  }

  /** The transitions for which the code has no branch. */
  predicate UnhandledTransition(e: BasicPayment, p: BasicPayment) {
    || (!e.IsPending() && p.IsPending())
    || (!e.IsPendingNotJunk() && p.IsPendingNotJunk())
    || (e.IsFinalizedNotJunk() && !p.IsFinalizedNotJunk())
  }

  lemma SortedReplace(ps: seq<BasicPayment>, i: nat, p: BasicPayment)
    requires StrictlySorted(ps) && i < |ps| && ps[i].index == p.index
    ensures StrictlySorted(ps[i := p])
  {}

  lemma BuildReplace(ps: seq<BasicPayment>, i: nat, p: BasicPayment, f: Filter)
    requires i < |ps|
    ensures Build(ps[i := p], f) == if f.Matches(p) then Build(ps, f) + {i} else Build(ps, f) - {i}
  {}

  /** From a consistent state no assert fires, and the result is consistent exactly for handled transitions. */
  lemma UpdateConsistentIff(s: PaymentDbState, i: nat, p: BasicPayment)
    requires s.Consistent() && i < |s.payments| && s.payments[i].index == p.index
    ensures !UpdatePanics(s, i, p)
    ensures ApplyUpdate(s, i, p).Consistent() <==> !UnhandledTransition(s.payments[i], p)
    ensures ApplyUpdate(s, i, p).Consistent() <==> ApplyUpdate(s, i, p) == Rebuild(s.payments[i := p])
  {
    SortedReplace(s.payments, i, p);
    BuildReplace(s.payments, i, p, PendingOnly);
    BuildReplace(s.payments, i, p, PendingNotJunk);
    BuildReplace(s.payments, i, p, FinalizedNotJunk);
    var t := ApplyUpdate(s, i, p);
    assert t.pending == Build(t.payments, PendingOnly) <==> (i in t.pending <==> p.IsPending());
    assert t.pendingNotJunk == Build(t.payments, PendingNotJunk) <==>
           (i in t.pendingNotJunk <==> p.IsPendingNotJunk());
    assert t.finalizedNotJunk == Build(t.payments, FinalizedNotJunk) <==>
           (i in t.finalizedNotJunk <==> p.IsFinalizedNotJunk());
  }

  /** What `update_payment_note` does to the state: the note only. */
  function ApplyNote(s: PaymentDbState, i: nat, note: Option<string>): PaymentDbState
    requires i < |s.payments|
  {
    s.(payments := s.payments[i := s.payments[i].(note := note)])
  }

  /** The only payments whose index memberships depend on the note. */
  predicate NoteSensitive(p: BasicPayment) {
    !p.status.Completed? && p.kind.Invoice? && p.direction.Inbound? && p.amount.Some? && !p.HasDescription()
  }

  predicate NoteSafe(p: BasicPayment, note: Option<string>) {
    NoteSensitive(p) ==> (p.HasNote() <==> note.Some? && note.value != "")
  }

  /**
   * A note edit keeps the indexes right exactly when the text does not appear on, or vanish from, a
   * note-sensitive payment.
   */
  lemma NoteConsistentIff(s: PaymentDbState, i: nat, note: Option<string>)
    requires s.Consistent() && i < |s.payments|
    ensures ApplyNote(s, i, note).Consistent() <==> NoteSafe(s.payments[i], note)
  {
    var p := s.payments[i].(note := note);
    SortedReplace(s.payments, i, p);
    BuildReplace(s.payments, i, p, PendingOnly);
    BuildReplace(s.payments, i, p, PendingNotJunk);
    BuildReplace(s.payments, i, p, FinalizedNotJunk);
    var t := ApplyNote(s, i, note);
    assert t.pending == Build(t.payments, PendingOnly);
    assert t.pendingNotJunk == Build(t.payments, PendingNotJunk) <==>
           (i in t.pendingNotJunk <==> p.IsPendingNotJunk());
    assert t.finalizedNotJunk == Build(t.payments, FinalizedNotJunk) <==>
           (i in t.finalizedNotJunk <==> p.IsFinalizedNotJunk());
  }

  /**
   * The gap is reachable. After a note edit, the next update of the payment hits
   * an assert exactly when the edit turned a pending payment from junk to not
   * junk and the update takes it out again, or turned a finalized one to junk
   * and the update undoes it.
   */
  lemma NoteThenUpdatePanics(s: PaymentDbState, i: nat, note: Option<string>, p: BasicPayment)
    requires s.Consistent() && i < |s.payments|
    ensures var before := s.payments[i];
            var edited := before.(note := note);
            UpdatePanics(ApplyNote(s, i, note), i, p) <==>
              || (before.IsPending() && before.IsJunk() && !edited.IsJunk() && !p.IsPendingNotJunk())
              || (before.IsFinalized() && !before.IsJunk() && edited.IsJunk() && p.IsFinalizedNotJunk())
  {}

  // --- Batches of updates --- //

  /** One element of an update batch; an unknown index is left to the caller. */
  function ApplyOne(s: PaymentDbState, p: BasicPayment): PaymentDbState
  {
    match Find(s.payments, p.index, |s.payments|)
    case None => s
    case Some(i) => if s.payments[i] == p then s else ApplyUpdate(s, i, p)
  }

  predicate OnePanics(s: PaymentDbState, p: BasicPayment)
  {
    match Find(s.payments, p.index, |s.payments|)
    case None => true
    case Some(i) => s.payments[i] != p && UpdatePanics(s, i, p)
  }

  /** What a panic leaves in memory and on disk. */
  function AfterPanic(s: PaymentDbState, files: Files, p: BasicPayment): (PaymentDbState, Files)
  {
    match Find(s.payments, p.index, |s.payments|)
    case None => (s, files)
    case Some(i) => (PanicBits(s, i, p), files[FileName(p) := PaymentJson(p)])
  }

  predicate OneChanges(s: PaymentDbState, p: BasicPayment)
  {
    match Find(s.payments, p.index, |s.payments|)
    case None => false
    case Some(i) => s.payments[i] != p
  }

  /** Memory, disk and the number of changed payments. */
  datatype Progress = Progress(state: PaymentDbState, files: Files, changed: nat)

  function StepUpdate(d: Progress, p: BasicPayment): Progress
  {
    if OneChanges(d.state, p)
    then Progress(ApplyOne(d.state, p), d.files[FileName(p) := PaymentJson(p)], d.changed + 1)
    else d
  }

  /** A whole batch, in order. */
  function RunUpdates(d: Progress, ps: seq<BasicPayment>): Progress
  {
    if ps == [] then d else StepUpdate(RunUpdates(d, ps[..|ps| - 1]), ps[|ps| - 1])
  }

  /** None of the updates, applied in order, hits an `expect` or an `assert!`. */
  predicate NoPanics(d: Progress, ps: seq<BasicPayment>)
  {
    ps == [] ||
    (NoPanics(d, ps[..|ps| - 1]) && !OnePanics(RunUpdates(d, ps[..|ps| - 1]).state, ps[|ps| - 1]))
  }

  lemma NoPanicsStep(d: Progress, ps: seq<BasicPayment>, k: nat)
    requires k < |ps|
    ensures NoPanics(d, ps[..k + 1]) <==> NoPanics(d, ps[..k]) && !OnePanics(RunUpdates(d, ps[..k]).state, ps[k])
  {
    assert ps[..k + 1][..k] == ps[..k];
  }

  lemma RunUpdatesStep(d: Progress, ps: seq<BasicPayment>, k: nat)
    requires k < |ps|
    ensures RunUpdates(d, ps[..k + 1]) == StepUpdate(RunUpdates(d, ps[..k]), ps[k])
  {
    assert ps[..k + 1][..k] == ps[..k];
  }

  lemma RunUpdatesNone(d: Progress, ps: seq<BasicPayment>)
    ensures RunUpdates(d, ps[..0]) == d && NoPanics(d, ps[..0])
  {}

  lemma StepUpdateIs(d: Progress, p: BasicPayment)
    ensures StepUpdate(d, p) ==
            if OneChanges(d.state, p)
            then Progress(ApplyOne(d.state, p), d.files[FileName(p) := PaymentJson(p)], d.changed + 1)
            else d
  {}

  lemma StepKeepsSorted(d: Progress, p: BasicPayment)
    requires StrictlySorted(d.state.payments)
    ensures StrictlySorted(StepUpdate(d, p).state.payments)
    ensures |StepUpdate(d, p).state.payments| == |d.state.payments|
  {}

  // --- The database object --- //

  function CompareIndex(a: PaymentIndex, b: PaymentIndex): Option<StrictOrder.Ordering>
  {
    Some(if a.Less(b) then StrictOrder.Before else if a == b then StrictOrder.Same else StrictOrder.After)
  }

  lemma SortedByKey(ps: seq<BasicPayment>)
    ensures StrictlySorted(ps) <==>
              forall i :: 0 <= i < |ps| - 1 ==> CompareIndex(ps[i].index, ps[i + 1].index) == Some(StrictOrder.Before)
  {
    if forall i :: 0 <= i < |ps| - 1 ==> CompareIndex(ps[i].index, ps[i + 1].index) == Some(StrictOrder.Before) {
      var cmp := (a: BasicPayment, b: BasicPayment) => CompareIndex(a.index, b.index);
      forall i, j | 0 <= i < j < |ps| ensures ps[i].index.Less(ps[j].index) {
        StrictOrder.ChainCoversAllPairs(ps, cmp, i, j);
      }
    }
  }

  class PaymentDb {
    const ffs: Ffs
    var state: PaymentDbState

    constructor (ffs: Ffs, state: PaymentDbState)
      ensures this.ffs == ffs && this.state == state
    {
      this.ffs := ffs;
      this.state := state;
    }

    /** `written` counts the payments whose file was written. */
    method InsertNewPayments(ps: seq<BasicPayment>) returns (r: Result<(), IoError>, ghost written: nat)
      requires |state.payments| + |ps| < MAX_PAYMENTS
      modifies this, ffs
      ensures written <= |ps|
      ensures ffs.failures == old(ffs.failures) + if r == Err(WriteFailed) then 1 else 0
      ensures r == Err(NotSortedOrUnique) <==> !StrictlySorted(ps)
      ensures r == Err(OlderThanDb) <==> StrictlySorted(ps) && !Newer(old(state), ps)
      ensures r.Err? && r.error in {NotSortedOrUnique, OlderThanDb} ==>
                state == old(state) && ffs.files == old(ffs.files)
      ensures r.Ok? ==> state == AppendAll(old(state), ps) && ffs.files == WriteAll(old(ffs.files), ps)
      ensures r.Ok? ==> NoConflicts(old(state), ps, |ps|)
      ensures r == Err(AlreadyIndexed) ==>
                && written < |ps| && Conflict(old(state), |old(state.payments)| + written, ps[written])
                && state ==
                    ConflictBits(IndexedOnly(old(state), ps[..written]), |old(state.payments)| + written, ps[written])
                && ffs.files == WriteAll(old(ffs.files), ps[..written])
      ensures r == Err(WriteFailed) ==>
                && written < |ps| && state == IndexedOnly(old(state), ps[..written + 1])
                && ffs.files - {FileName(ps[written])} ==
                   WriteAll(old(ffs.files), ps[..written]) - {FileName(ps[written])}
    {
      hide *;
      InsertChecks(state, ps);
      written := 0;
      InsertStart(ffs.files, state, ps);
      assert ps[..0] == [];
      if ps == [] {
        return Ok(()), 0;
      }
      var sorted := StrictOrder.IsStrictTotalOrderByKey(ps, (p: BasicPayment) => p.index, CompareIndex);
      SortedByKey(ps);
      if !sorted {
        return Err(NotSortedOrUnique), 0;
      }
      var latest := state.LatestPaymentIndex();
      if latest.Some? && !latest.value.Less(ps[0].index) {
        return Err(OlderThanDb), 0;
      }
      r, written := IndexAndWrite(ps);
      if r.Ok? {
        state := state.(payments := state.payments + ps);
      }
    }

    /** The loop of `insert_new_payments`: bitmap bits first, then the file, payment by payment. */
    method IndexAndWrite(ps: seq<BasicPayment>) returns (r: Result<(), IoError>, ghost written: nat)
      requires |state.payments| + |ps| < MAX_PAYMENTS
      modifies this, ffs
      ensures written <= |ps| && state.payments == old(state.payments)
      ensures ffs.failures == old(ffs.failures) + if r == Err(WriteFailed) then 1 else 0
      ensures r.Ok? ==> state == IndexedOnly(old(state), ps) && ffs.files == WriteAll(old(ffs.files), ps)
      ensures r.Ok? ==> NoConflicts(old(state), ps, |ps|)
      ensures r.Err? ==>
                && written < |ps|
                && (r.error.AlreadyIndexed? || r.error.WriteFailed?)
                && ffs.files - {FileName(ps[written])} ==
                   WriteAll(old(ffs.files), ps[..written]) - {FileName(ps[written])}
      ensures r == Err(AlreadyIndexed) ==>
                && Conflict(old(state), |old(state.payments)| + written, ps[written])
                && state ==
                    ConflictBits(IndexedOnly(old(state), ps[..written]), |old(state.payments)| + written, ps[written])
                && ffs.files == WriteAll(old(ffs.files), ps[..written])
      ensures r == Err(WriteFailed) ==> state == IndexedOnly(old(state), ps[..written + 1])
    {
      hide *;
      InsertStart(ffs.files, state, ps);
      var n, k := |state.payments|, 0;
      written := 0;
      while k < |ps|
        invariant k <= |ps| && written == k && ffs.failures == old(ffs.failures)
        invariant state == IndexedOnly(old(state), ps[..k]) && state.payments == old(state.payments)
        invariant ffs.files == WriteAll(old(ffs.files), ps[..k])
        invariant NoConflicts(old(state), ps, k)
      {
        InsertStep(old(state), ps, k);
        ConflictKeepsPayments(state, n + k, ps[k]);
        var isNew := IndexPayment(n + k, ps[k]);
        if !isNew { return Err(AlreadyIndexed), k; }
        var ok := ffs.Write(FileName(ps[k]), PaymentJson(ps[k]));
        if !ok { return Err(WriteFailed), k; }
        WriteAllStep(old(ffs.files), ps, k);
        k := k + 1;
        written := k;
      }
      assert ps[..k] == ps;
      r := Ok(());
    }

    /** Sets the bits of one new payment; reports a bit that was already set. */
    method IndexPayment(vecIdx: nat, p: BasicPayment) returns (ok: bool)
      modifies this
      ensures ok <==> !Conflict(old(state), vecIdx, p)
      ensures state == if ok then WithBits(old(state), vecIdx, p) else ConflictBits(old(state), vecIdx, p)
    {
      if p.IsPending() {
        if vecIdx in state.pending { return false; }
        state := state.(pending := state.pending + {vecIdx});
      }
      if p.IsPendingNotJunk() {
        if vecIdx in state.pendingNotJunk { return false; }
        state := state.(pendingNotJunk := state.pendingNotJunk + {vecIdx});
      }
      if p.IsFinalizedNotJunk() {
        if vecIdx in state.finalizedNotJunk { return false; }
        state := state.(finalizedNotJunk := state.finalizedNotJunk + {vecIdx});
      }
      ok := true;
    }

    /** Everything `update_pending_payment` may do, keyed by the payment it names. */
    method UpdatePendingPayment(p: BasicPayment) returns (r: Run<Result<nat, IoError>>)
      requires StrictlySorted(state.payments)
      modifies this, ffs
      ensures Find(old(state.payments), p.index, |old(state.payments)|).None? ==> r.Panics?
      ensures ffs.failures == old(ffs.failures) + if r == Returns(Err(WriteFailed)) then 1 else 0
      ensures r == Returns(Ok(0)) ==>
                !OneChanges(old(state), p) && state == old(state) && ffs.files == old(ffs.files)
      ensures r == Returns(Ok(1)) ==>
                && OneChanges(old(state), p) && state == ApplyOne(old(state), p)
                && state.payments ==
                   old(state.payments)[Find(old(state.payments), p.index, |old(state.payments)|).value := p]
                && ffs.files == old(ffs.files)[FileName(p) := PaymentJson(p)]
      ensures r.Returns? && r.value.Ok? ==> r.value.value <= 1 && !OnePanics(old(state), p)
      ensures r.Returns? && r.value.Err? ==>
                && r.value.error.WriteFailed? && OneChanges(old(state), p) && state == old(state)
                && ffs.files - {FileName(p)} == old(ffs.files) - {FileName(p)}
      ensures r.Panics? ==>
                && OnePanics(old(state), p) && state.payments == old(state.payments)
                && (state, ffs.files) == AfterPanic(old(state), old(ffs.files), p)
    {
      var found := Find(state.payments, p.index, |state.payments|);
      if found.None? { return Panics; }
      var i := found.value;
      var e := state.payments[i];
      if p == e { return Returns(Ok(0)); }
      var ok := ffs.Write(FileName(p), PaymentJson(p));
      if !ok { return Returns(Err(WriteFailed)); }

      if e.IsPending() && !p.IsPending() {
        if i !in state.pending {
          assert state.pending - {i} == state.pending;
          return Panics;
        }
        state := state.(pending := state.pending - {i});
      }
      if e.IsPendingNotJunk() && !p.IsPendingNotJunk() {
        if i !in state.pendingNotJunk {
          assert state.pendingNotJunk - {i} == state.pendingNotJunk;
          return Panics;
        }
        state := state.(pendingNotJunk := state.pendingNotJunk - {i});
      }
      if !e.IsFinalizedNotJunk() && p.IsFinalizedNotJunk() {
        if i in state.finalizedNotJunk { return Panics; }
        state := state.(finalizedNotJunk := state.finalizedNotJunk + {i});
      }
      state := state.(payments := state.payments[i := p]);
      r := Returns(Ok(1));
    }

    ghost function Image(): Progress
      reads this, ffs
    {
      Progress(state, ffs.files, 0)
    }

    /** Applies the updates in order; `done` counts those applied before the first failure. */
    method UpdatePendingPayments(ps: seq<BasicPayment>) returns (r: Run<Result<nat, IoError>>, ghost done: nat)
      requires StrictlySorted(state.payments)
      modifies this, ffs
      ensures done <= |ps|
      ensures ffs.failures == old(ffs.failures) + if r == Returns(Err(WriteFailed)) then 1 else 0
      ensures r.Returns? && r.value.Ok? ==>
                done == |ps| && Progress(state, ffs.files, r.value.value) == RunUpdates(old(Image()), ps)
      ensures r.Returns? && r.value.Err? ==>
                && done < |ps| && r.value.error.WriteFailed? && NoPanics(old(Image()), ps[..done])
                && state == RunUpdates(old(Image()), ps[..done]).state
                && ffs.files - {FileName(ps[done])} ==
                   RunUpdates(old(Image()), ps[..done]).files - {FileName(ps[done])}
      ensures r.Returns? && r.value.Ok? ==> NoPanics(old(Image()), ps)
      ensures r.Panics? ==>
                && done < |ps| && NoPanics(old(Image()), ps[..done]) && !NoPanics(old(Image()), ps[..done + 1])
                && var before := RunUpdates(old(Image()), ps[..done]);
                   (state, ffs.files) == AfterPanic(before.state, before.files, ps[done])
      ensures StrictlySorted(state.payments)
    {
      hide *;
      ImageIs(this);
      RunUpdatesNone(Image(), ps);
      var numUpdated, k := 0, 0;
      done := 0;
      while k < |ps|
        invariant k <= |ps| && done == k && ffs.failures == old(ffs.failures)
        invariant StrictlySorted(state.payments)
        invariant NoPanics(old(Image()), ps[..k])
        invariant Progress(state, ffs.files, numUpdated) == RunUpdates(old(Image()), ps[..k])
      {
        RunUpdatesStep(old(Image()), ps, k);
        NoPanicsStep(old(Image()), ps, k);
        StepUpdateIs(RunUpdates(old(Image()), ps[..k]), ps[k]);
        StepKeepsSorted(RunUpdates(old(Image()), ps[..k]), ps[k]);
        var one := UpdatePendingPayment(ps[k]);
        if one.Panics? { return Panics, k; }
        if one.value.Err? { return Returns(one.value), k; }
        numUpdated := numUpdated + one.value.value;
        k := k + 1;
        done := k;
      }
      assert ps[..k] == ps;
      r := Returns(Ok(numUpdated));
    }

    /** Memory changes first; a failed write leaves memory ahead of disk. */
    method UpdatePaymentNote(index: PaymentIndex, note: Option<string>) returns (r: Result<(), string>)
      requires StrictlySorted(state.payments)
      modifies this, ffs
      ensures ffs.failures == old(ffs.failures) +
                if r.Err? && Find(old(state.payments), index, |old(state.payments)|).Some? then 1 else 0
      ensures match Find(old(state.payments), index, |old(state.payments)|)
              case None => r.Err? && state == old(state) && ffs.files == old(ffs.files)
              case Some(i) =>
                var edited := old(state.payments)[i].(note := note);
                && state == old(state).(payments := old(state.payments)[i := edited])
                && state == ApplyNote(old(state), i, note)
                && (if r.Ok?
                    then ffs.files == old(ffs.files)[FileName(edited) := PaymentJson(edited)]
                    else ffs.files - {FileName(edited)} == old(ffs.files) - {FileName(edited)})
    {
      var found := Find(state.payments, index, |state.payments|);
      if found.None? { return Err("Updating non-existent payment"); }
      var p := state.payments[found.value].(note := note);
      state := state.(payments := state.payments[found.value := p]);
      var ok := ffs.Write(FileName(p), PaymentJson(p));
      if !ok { return Err("Failed to write payment to local db"); }
      r := Ok(());
    }
  }

  lemma ImageIs(db: PaymentDb)
    ensures db.Image() == Progress(db.state, db.ffs.files, 0)
  {}

  lemma WriteAllStep(files: Files, ps: seq<BasicPayment>, k: nat)
    requires k < |ps|
    ensures WriteAll(files, ps[..k + 1]) == WriteAll(files, ps[..k])[FileName(ps[k]) := PaymentJson(ps[k])]
  {
    assert ps[..k + 1][..k] == ps[..k];
  }

  lemma InsertChecks(s: PaymentDbState, ps: seq<BasicPayment>)
    ensures ps == [] ==> AppendAll(s, ps) == s && StrictlySorted(ps) && Newer(s, ps)
    ensures ps != [] ==>
              (Newer(s, ps) <==> s.LatestPaymentIndex().None? || s.LatestPaymentIndex().value.Less(ps[0].index))
    ensures AppendAll(s, ps) == IndexedOnly(s, ps).(payments := s.payments + ps)
  {}

  lemma InsertStart(files: Files, s: PaymentDbState, ps: seq<BasicPayment>)
    ensures IndexedOnly(s, ps[..0]) == s && WriteAll(files, ps[..0]) == files && NoConflicts(s, ps, 0)
  {}

  lemma InsertStep(s: PaymentDbState, ps: seq<BasicPayment>, k: nat)
    requires k < |ps|
    ensures IndexedOnly(s, ps[..k + 1]) == WithBits(IndexedOnly(s, ps[..k]), |s.payments| + k, ps[k])
    ensures IndexedOnly(s, ps[..k]).payments == IndexedOnly(s, ps[..k + 1]).payments == s.payments
    ensures Conflict(IndexedOnly(s, ps[..k]), |s.payments| + k, ps[k]) <==> Conflict(s, |s.payments| + k, ps[k])
    ensures NoConflicts(s, ps, k + 1) <==>
              NoConflicts(s, ps, k) && !Conflict(IndexedOnly(s, ps[..k]), |s.payments| + k, ps[k])
  {
  }

  lemma ConflictKeepsPayments(s: PaymentDbState, v: nat, p: BasicPayment)
    ensures ConflictBits(s, v, p).payments == s.payments
  {}

}
