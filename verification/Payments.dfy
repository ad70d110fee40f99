/**
 * The app-facing payment record and its key
 * (common/src/ln/payments.rs).
 */
module Payments {
  import opened Wrappers

  /** Milliseconds since the epoch: a non-negative i64. */
  type TimestampMs = t: nat | t <= 0x7FFF_FFFF_FFFF_FFFF

  /** 32 id bytes, read big-endian in the order in which the id is displayed. */
  type Id256 = n: nat | n < 0x1_0000_0000_0000_0000_0000_0000_0000_0000_0000_0000_0000_0000_0000_0000_0000_0000

  datatype LxPaymentId =
    | OnchainSend(cid: Id256)
    | OnchainRecv(txid: Id256)
    | Lightning(hash: Id256)
  {
    function Raw(): Id256 {
      match this
      case OnchainSend(n) => n
      case OnchainRecv(n) => n
      case Lightning(n) => n
    }

    /** Position of the string prefix in the order "ln" < "or" < "os". */
    function KindRank(): nat {
      match this
      case Lightning(_) => 0
      case OnchainRecv(_) => 1
      case OnchainSend(_) => 2
    }

    predicate Less(other: LxPaymentId) {
      KindRank() < other.KindRank() || (KindRank() == other.KindRank() && Raw() < other.Raw())
    }
  }

  datatype PaymentIndex = PaymentIndex(createdAt: TimestampMs, id: LxPaymentId) {
    /** Derived order: timestamp first, then id. */
    predicate Less(other: PaymentIndex) {
      createdAt < other.createdAt || (createdAt == other.createdAt && id.Less(other.id))
    }
  }

  datatype PaymentKind = Onchain | Invoice | Spontaneous
  datatype PaymentDirection = Inbound | Outbound
  datatype PaymentStatus = Pending | Completed | Failed

  /** The part of a BOLT11 invoice that the database looks at: its description, "" if absent or a hash. */
  datatype LxInvoice = LxInvoice(description: string, bolt11: string)

  datatype BasicPayment = BasicPayment(
    index: PaymentIndex,
    kind: PaymentKind,
    direction: PaymentDirection,
    invoice: Option<LxInvoice>,
    replacement: Option<Id256>,
    amount: Option<nat>,
    fees: nat,
    status: PaymentStatus,
    statusStr: string,
    note: Option<string>,
    finalizedAt: Option<TimestampMs>)
  {
    predicate IsPending() { status.Pending? }

    predicate IsFinalized() { !IsPending() }

    predicate HasNote() { note.Some? && note.value != "" }

    predicate HasDescription() { invoice.Some? && invoice.value.description != "" }

    predicate HasNoteOrDescription() { HasNote() || HasDescription() }

    /** Unpaid inbound invoices that lack an amount or lack any text. */
    predicate IsJunk() {
      !status.Completed? && kind.Invoice? && direction.Inbound? && (amount.None? || !HasNoteOrDescription())
    }

    predicate IsPendingNotJunk() { IsPending() && !IsJunk() }

    predicate IsFinalizedNotJunk() { IsFinalized() && !IsJunk() }
  }

  /** The filters for which the database keeps an index or offers a lookup. */
  datatype Filter = AnyPayment | PendingOnly | FinalizedOnly | PendingNotJunk | FinalizedNotJunk {
    predicate Matches(p: BasicPayment) {
      match this
      case AnyPayment => true
      case PendingOnly => p.IsPending()
      case FinalizedOnly => p.IsFinalized()
      case PendingNotJunk => p.IsPendingNotJunk()
      case FinalizedNotJunk => p.IsFinalizedNotJunk()
    }
  }

  /** Which payments are hidden by default: the unpaid inbound invoices without an amount or without any text. */
  lemma JunkIs(p: BasicPayment)
    ensures p.status.Completed? || !p.kind.Invoice? || p.direction.Outbound? ==> !p.IsJunk()
    ensures p.amount.Some? && (p.HasNote() || p.HasDescription()) ==> !p.IsJunk()
    ensures p.IsJunk() || p.status.Completed? || !p.kind.Invoice? || p.direction.Outbound? ||
            (p.amount.Some? && (p.HasNote() || p.HasDescription()))
    ensures p.note == None || p.note == Some("") ==> !p.HasNote()
    ensures p.invoice.None? || p.invoice.value.description == "" ==> !p.HasDescription()
  {}

  ghost predicate StrictlySorted(ps: seq<BasicPayment>) {
    forall i, j :: 0 <= i < j < |ps| ==> ps[i].index.Less(ps[j].index)
  }

  /** `Less` is a strict total order on indexes. */
  lemma IndexOrderTotal(a: PaymentIndex, b: PaymentIndex, c: PaymentIndex)
    ensures !a.Less(a)
    ensures a.Less(b) && b.Less(c) ==> a.Less(c)
    ensures a.Less(b) || a == b || b.Less(a)
    ensures !(a.Less(b) && b.Less(a))
  {}

  /** Two strictly sorted vectors with the same elements are the same vector. */
  lemma {:induction false} StrictlySortedUnique(a: seq<BasicPayment>, b: seq<BasicPayment>)
    requires StrictlySorted(a) && StrictlySorted(b)
    requires forall p :: p in a <==> p in b
    ensures a == b
    decreases |a|
  {
    if a == [] {
      assert forall k :: 0 <= k < |b| ==> b[k] in b;
    } else {
      assert a[0] in a;
      assert b[0] in b;
      var i :| 0 <= i < |b| && b[i] == a[0];
      var j :| 0 <= j < |a| && a[j] == b[0];
      assert i == 0 || b[0].index.Less(b[i].index);
      assert j == 0 || a[0].index.Less(a[j].index);
      forall p ensures p in a[1..] <==> p in b[1..] {
        TailMembers(a, p);
        TailMembers(b, p);
      }
      StrictlySortedUnique(a[1..], b[1..]);
      assert a == [a[0]] + a[1..];
      assert b == [b[0]] + b[1..];
    }
  }

  lemma TailMembers(a: seq<BasicPayment>, p: BasicPayment)
    requires a != [] && StrictlySorted(a)
    ensures p in a[1..] <==> p in a && p != a[0]
  {}
}
