/**
 * The in-memory half of the app's payment database: a sorted vector, three
 * bitmap indexes, and the lookups by UI scroll position
 * (app-rs/src/payments.rs, `PaymentDbState`).
 */
module DbState {
  import opened Wrappers
  import opened Payments
  import Bitmap
  import Sets

  /** The code casts vector indexes to u32. */
  const MAX_PAYMENTS: nat := TWO_32

  /** A call either returns a value or hits one of the source's `expect`, `assert!` or index panics. */
  datatype Run<+T> = Returns(value: T) | Panics

  datatype Found = Found(vecIdx: nat, payment: BasicPayment)

  datatype PaymentDbState = PaymentDbState(
    payments: seq<BasicPayment>,
    pending: set<nat>,
    pendingNotJunk: set<nat>,
    finalizedNotJunk: set<nat>)
  {
    /** The invariant that the source's `debug_assert_invariants` rechecks. */
    ghost predicate Consistent() {
      && StrictlySorted(payments)
      && pending == Build(payments, PendingOnly)
      && pendingNotJunk == Build(payments, PendingNotJunk)
      && finalizedNotJunk == Build(payments, FinalizedNotJunk)
    }

    function LatestPaymentIndex(): (r: Option<PaymentIndex>) {
      if payments == [] then None else Some(payments[|payments| - 1].index)
    }

    /** `&self.payments[vec_idx]`: out of range panics. */
    function At(vecIdx: nat): (r: Run<Option<Found>>) {
      if vecIdx < |payments| then Returns(Some(Found(vecIdx, payments[vecIdx]))) else Panics
    }

    /** The shared shape of the lookups that have a bitmap: reverse rank, then `select`. */
    function ByReverseRank(index: set<nat>, scrollIdx: nat): (r: Run<Option<Found>>) {
      if scrollIdx >= |index| then Returns(None)
      else
        match Bitmap.Select(index, |index| - scrollIdx - 1)
        case Some(vecIdx) => At(vecIdx)
        case None => Panics
    }

    function GetPayment(scrollIdx: nat): (r: Run<Option<Found>>) {
      if scrollIdx >= |payments| then Returns(None) else At(|payments| - scrollIdx - 1)
    }

    function GetPending(scrollIdx: nat): (r: Run<Option<Found>>) { ByReverseRank(pending, scrollIdx) }

    function GetPendingNotJunk(scrollIdx: nat): (r: Run<Option<Found>>) { ByReverseRank(pendingNotJunk, scrollIdx) }

    function GetFinalizedNotJunk(scrollIdx: nat): (r: Run<Option<Found>>) { ByReverseRank(finalizedNotJunk, scrollIdx) }

    /** No index exists for plain finalized payments: estimate, then correct by rank. */
    function GetFinalized(scrollIdx: nat): (r: Run<Option<Found>>) {
      if |pending| > |payments| then Panics
      else if scrollIdx >= |payments| - |pending| then Returns(None)
      else
        var revIdx := |payments| - scrollIdx - 1;
        var numPendingAtOrAbove := Bitmap.Rank(pending, revIdx);
        if numPendingAtOrAbove > |pending| then Panics
        else
          var numPendingBelow := |pending| - numPendingAtOrAbove;
          var rest := NewestFirst(payments, FinalizedOnly, |payments| - scrollIdx);
          if numPendingBelow < |rest| then At(rest[numPendingBelow]) else Panics
    }

    /** The reference: filter the reversed vector, take the nth. */
    function Naive(f: Filter, scrollIdx: nat): (r: Option<Found>) {
      var hits := NewestFirst(payments, f, |payments|);
      if scrollIdx < |hits| then Some(Found(hits[scrollIdx], payments[hits[scrollIdx]])) else None
    }
  }

  /** `binary_search_by_key(..).ok()` over the first `n` payments of a sorted vector. */
  function Find(payments: seq<BasicPayment>, index: PaymentIndex, n: nat): (r: Option<nat>)
    requires n <= |payments|
    ensures r.Some? ==> r.value < n && payments[r.value].index == index
    ensures r.None? ==> forall i :: 0 <= i < n ==> payments[i].index != index
  {
    if n == 0 then None
    else if payments[n - 1].index == index then Some(n - 1)
    else Find(payments, index, n - 1)
  }

  /** `from_unsorted_vec`'s last step: all three indexes computed from scratch. */
  function Rebuild(payments: seq<BasicPayment>): (s: PaymentDbState)
    ensures StrictlySorted(payments) ==> s.Consistent()
  {
    PaymentDbState(payments, Build(payments, PendingOnly), Build(payments, PendingNotJunk),
                   Build(payments, FinalizedNotJunk))
  }

  /** The bitmap of all vector positions whose payment passes the filter. */
  function Build(payments: seq<BasicPayment>, f: Filter): (s: set<nat>)
  {
    set i: nat | i < |payments| && f.Matches(payments[i])
  }

  /** Positions below `n` that pass the filter, newest first. */
  function NewestFirst(payments: seq<BasicPayment>, f: Filter, n: nat): (r: seq<nat>)
    requires n <= |payments|
    ensures forall i :: 0 <= i < |r| ==> r[i] < n && f.Matches(payments[r[i]])
  {
    if n == 0 then []
    else if f.Matches(payments[n - 1]) then [n - 1] + NewestFirst(payments, f, n - 1)
    else NewestFirst(payments, f, n - 1)
  }

  /** The same positions, oldest first. */
  ghost function OldestFirst(payments: seq<BasicPayment>, f: Filter, n: nat): (r: seq<nat>)
    requires n <= |payments|
  {
    if n == 0 then []
    else if f.Matches(payments[n - 1]) then OldestFirst(payments, f, n - 1) + [n - 1]
    else OldestFirst(payments, f, n - 1)
  }

  lemma {:induction false} OldestFirstEnumerates(payments: seq<BasicPayment>, f: Filter, n: nat)
    requires n <= |payments|
    ensures Bitmap.Enumerates(OldestFirst(payments, f, n), Build(payments[..n], f))
    ensures forall i :: 0 <= i < |OldestFirst(payments, f, n)| ==> OldestFirst(payments, f, n)[i] < n
  {
    if n > 0 {
      OldestFirstEnumerates(payments, f, n - 1);
      assert Build(payments[..n], f) ==
             Build(payments[..n - 1], f) + (if f.Matches(payments[n - 1]) then {n - 1} else {});
    }
  }

  ghost function Reversed(s: seq<nat>): (r: seq<nat>)
    ensures |r| == |s|
  {
    seq(|s|, k requires 0 <= k < |s| => s[|s| - 1 - k])
  }

  lemma {:induction false} NewestIsReversedOldest(payments: seq<BasicPayment>, f: Filter, n: nat)
    requires n <= |payments|
    ensures NewestFirst(payments, f, n) == Reversed(OldestFirst(payments, f, n))
  {
    if n > 0 {
      NewestIsReversedOldest(payments, f, n - 1);
      var older := OldestFirst(payments, f, n - 1);
      assert Reversed(older + [n - 1]) == [n - 1] + Reversed(older);
    }
  }

  lemma BuiltEnumeration(payments: seq<BasicPayment>, f: Filter)
    ensures var asc := OldestFirst(payments, f, |payments|);
            Bitmap.Enumerates(asc, Build(payments, f)) && NewestFirst(payments, f, |payments|) == Reversed(asc)
  {
    assert payments[..|payments|] == payments;
    OldestFirstEnumerates(payments, f, |payments|);
    NewestIsReversedOldest(payments, f, |payments|);
  }

  lemma ReversedAt(s: seq<nat>, k: nat)
    ensures k < |s| ==> Reversed(s)[k] == s[|s| - k - 1]
  {}

  lemma SelectReversed(s: set<nat>, asc: seq<nat>, k: nat)
    requires Bitmap.Enumerates(asc, s)
    ensures |s| == |asc|
    ensures k < |asc| ==> Bitmap.Select(s, |asc| - k - 1) == Some(Reversed(asc)[k])
  {
    hide *;
    ReversedAt(asc, k);
    Bitmap.SelectEnumeration(s, asc, if k < |asc| then |asc| - k - 1 else 0);
  }

  lemma SelectFromBuilt(payments: seq<BasicPayment>, f: Filter, k: nat)
    ensures var newest := NewestFirst(payments, f, |payments|);
            && |Build(payments, f)| == |newest|
            && (k < |newest| ==> Bitmap.Select(Build(payments, f), |newest| - k - 1) == Some(newest[k]))
  {
    hide *;
    BuiltEnumeration(payments, f);
    SelectReversed(Build(payments, f), OldestFirst(payments, f, |payments|), k);
  }

  /** A lookup by reversed rank over the index built for `f` is the naive lookup for `f`. */
  lemma ReverseRankIsNaive(s: PaymentDbState, f: Filter, scrollIdx: nat)
    ensures s.ByReverseRank(Build(s.payments, f), scrollIdx) == Returns(s.Naive(f, scrollIdx))
  {
    SelectFromBuilt(s.payments, f, scrollIdx);
  }

  /** Dropping the newest `n - m` slots removes a prefix of the newest-first list. */
  lemma {:induction false} NewestFirstSplit(payments: seq<BasicPayment>, f: Filter, m: nat, n: nat)
    returns (top: seq<nat>)
    requires m <= n <= |payments|
    ensures NewestFirst(payments, f, n) == top + NewestFirst(payments, f, m)
    decreases n
  {
    if n == m {
      top := [];
    } else {
      var top' := NewestFirstSplit(payments, f, m, n - 1);
      if f.Matches(payments[n - 1]) {
        top := [n - 1] + top';
        assert top + NewestFirst(payments, f, m) == [n - 1] + (top' + NewestFirst(payments, f, m));
      } else {
        top := top';
      }
    }
  }

  /** Every slot is either pending or finalized. */
  lemma {:induction false} PendingPlusFinalized(payments: seq<BasicPayment>, n: nat)
    requires n <= |payments|
    ensures |NewestFirst(payments, PendingOnly, n)| + |NewestFirst(payments, FinalizedOnly, n)| == n
  {
    if n > 0 {
      PendingPlusFinalized(payments, n - 1);
    }
  }

  lemma BuildSize(payments: seq<BasicPayment>, f: Filter, n: nat)
    requires n <= |payments|
    ensures |Build(payments[..n], f)| == |NewestFirst(payments, f, n)|
  {
    OldestFirstEnumerates(payments, f, n);
    Bitmap.SelectEnumeration(Build(payments[..n], f), OldestFirst(payments, f, n), 0);
    NewestIsReversedOldest(payments, f, n);
  }

  lemma RankIsPrefixSize(payments: seq<BasicPayment>, f: Filter, n: nat)
    requires 0 < n <= |payments|
    ensures Bitmap.Rank(Build(payments, f), n - 1) == |NewestFirst(payments, f, n)|
  {
    BuildSize(payments, f, n);
    assert Build(payments[..n], f) == Bitmap.AtMost(Build(payments, f), n - 1);
  }

  /**
   * The rank-corrected finalized lookup returns exactly the scrollIdx-th
   * finalized payment from the newest, never reaches its `expect`, and
   * returns nothing exactly when the index is out of range.
   */
  lemma FinalizedLookupIsNaive(s: PaymentDbState, scrollIdx: nat)
    requires s.pending == Build(s.payments, PendingOnly)
    ensures s.GetFinalized(scrollIdx) == Returns(s.Naive(FinalizedOnly, scrollIdx))
    ensures s.GetFinalized(scrollIdx).value.None? <==>
              scrollIdx >= |Build(s.payments, FinalizedOnly)|
  {
    var ps, n := s.payments, |s.payments|;
    assert ps[..n] == ps;
    BuildSize(ps, PendingOnly, n);
    BuildSize(ps, FinalizedOnly, n);
    PendingPlusFinalized(ps, n);
    if scrollIdx < n - |s.pending| {
      var m := n - scrollIdx;
      PendingPlusFinalized(ps, m);
      RankIsPrefixSize(ps, PendingOnly, m);
      var topP := NewestFirstSplit(ps, PendingOnly, m, n);
      var topF := NewestFirstSplit(ps, FinalizedOnly, m, n);
      assert |topP| + |topF| == scrollIdx;
      assert |s.pending| - Bitmap.Rank(s.pending, m - 1) == |topP|;
    }
  }

  /** Every indexed lookup agrees with the naive one in every consistent state. */
  lemma LookupsAreNaive(s: PaymentDbState, scrollIdx: nat)
    requires s.Consistent()
    ensures s.GetPending(scrollIdx) == Returns(s.Naive(PendingOnly, scrollIdx))
    ensures s.GetPendingNotJunk(scrollIdx) == Returns(s.Naive(PendingNotJunk, scrollIdx))
    ensures s.GetFinalizedNotJunk(scrollIdx) == Returns(s.Naive(FinalizedNotJunk, scrollIdx))
    ensures s.GetFinalized(scrollIdx) == Returns(s.Naive(FinalizedOnly, scrollIdx))
    ensures s.GetPayment(scrollIdx) == Returns(s.Naive(AnyPayment, scrollIdx))
  {
    ReverseRankIsNaive(s, PendingOnly, scrollIdx);
    ReverseRankIsNaive(s, PendingNotJunk, scrollIdx);
    ReverseRankIsNaive(s, FinalizedNotJunk, scrollIdx);
    FinalizedLookupIsNaive(s, scrollIdx);
    AnyPaymentNewestFirst(s.payments, |s.payments|, scrollIdx);
  }

  lemma {:induction false} AnyPaymentNewestFirst(payments: seq<BasicPayment>, n: nat, k: nat)
    requires n <= |payments|
    ensures |NewestFirst(payments, AnyPayment, n)| == n
    ensures k < n ==> NewestFirst(payments, AnyPayment, n)[k] == n - 1 - k
  {
    if n > 0 {
      AnyPaymentNewestFirst(payments, n - 1, if k == 0 then 0 else k - 1);
    }
  }

  /** The vecIdx handed out with a payment finds that payment. */
  lemma VecIdxFinds(s: PaymentDbState, f: Filter, scrollIdx: nat)
    requires s.Naive(f, scrollIdx).Some?
    ensures var hit := s.Naive(f, scrollIdx).value;
            s.At(hit.vecIdx) == Returns(Some(hit)) && f.Matches(hit.payment)
  {}

  /** The subset facts (4.) of the source's integrity check, and its junk characterisation (3.). */
  lemma ConsistentIntegrity(s: PaymentDbState, i: nat)
    requires s.Consistent()
    ensures s.pendingNotJunk <= s.pending
    ensures s.finalizedNotJunk !! s.pending
    ensures i < |s.payments| ==>
              (s.payments[i].IsJunk() <==> i !in s.pendingNotJunk && i !in s.finalizedNotJunk)
    ensures |s.pending| <= |s.payments|
    ensures |s.finalizedNotJunk| <= |s.payments| - |s.pending|
  {
    var n := |s.payments|;
    assert s.payments[..n] == s.payments;
    BuildSize(s.payments, PendingOnly, n);
    BuildSize(s.payments, FinalizedOnly, n);
    PendingPlusFinalized(s.payments, n);
    assert s.finalizedNotJunk <= Build(s.payments, FinalizedOnly);
    Sets.SubsetSize(s.finalizedNotJunk, Build(s.payments, FinalizedOnly));
  }
}
