/** The non-cryptographic generator and the in-place shuffle (common/src/rng.rs). */
module WeakRng {

  datatype RngState = RngState(s0: bv32, s1: bv32)

  /** `rotate_left` by the two amounts in use, and back. */
  function RotL26(x: bv32): bv32 { (x << 26) | (x >> 6) }

  function RotR26(x: bv32): bv32 { (x >> 26) | (x << 6) }

  function RotL13(x: bv32): bv32 { (x << 13) | (x >> 19) }

  function RotR13(x: bv32): bv32 { (x >> 13) | (x << 19) }

  function Xor(a: bv32, b: bv32): bv32 { a ^ b }

  function Mix(a: bv32, x: bv32): bv32 { a ^ x ^ (x << 9) }

  /** The value handed out in a state. */
  function Output(s: RngState): bv32 { s.s0 * 0x9e3779bb }

  /** One step of Xoroshiro64Star. */
  function Next(s: RngState): RngState {
    var x := Xor(s.s1, s.s0);
    RngState(Mix(RotL26(s.s0), x), RotL13(x))
  }

  /** The step taken back. */
  function Previous(s: RngState): RngState {
    var x := RotR13(s.s1);
    var s0 := RotR26(Mix(s.s0, x));
    RngState(s0, Xor(x, s0))
  }

  lemma Rotations(a: bv32)
    ensures RotR26(RotL26(a)) == a && RotL26(RotR26(a)) == a
    ensures RotR13(RotL13(a)) == a && RotL13(RotR13(a)) == a
  {}

  lemma XorTwice(a: bv32, b: bv32)
    ensures Xor(Xor(a, b), b) == a
  {}

  lemma MixTwice(a: bv32, b: bv32)
    ensures Mix(Mix(a, b), b) == a
  {}

  /** Each ingredient is undone by itself or by its mirror image. */
  lemma Inverses(a: bv32, b: bv32)
    ensures RotR26(RotL26(a)) == a && RotL26(RotR26(a)) == a
    ensures RotR13(RotL13(a)) == a && RotL13(RotR13(a)) == a
    ensures Xor(Xor(a, b), b) == a && Mix(Mix(a, b), b) == a
  {
    hide *;
    Rotations(a);
    XorTwice(a, b);
    MixTwice(a, b);
  }

  lemma NextThenPrevious(s: RngState)
    ensures Previous(Next(s)) == s
  {
    hide RotL26, RotR26, RotL13, RotR13, Xor, Mix;
    var x := Xor(s.s1, s.s0);
    Inverses(x, 0);
    Inverses(RotL26(s.s0), x);
    Inverses(s.s0, 0);
    Inverses(s.s1, s.s0);
  }

  lemma PreviousThenNext(s: RngState)
    ensures Next(Previous(s)) == s
  {
    hide RotL26, RotR26, RotL13, RotR13, Xor, Mix;
    var x := RotR13(s.s1);
    var y := Mix(s.s0, x);
    Inverses(y, 0);
    Inverses(s.s1, 0);
    Inverses(s.s0, x);
    Inverses(x, RotR26(y));
  }

  /** The step is a bijection on states. */
  lemma NextBijective(s: RngState, t: RngState)
    ensures Next(s) == Next(t) ==> s == t
    ensures exists u :: Next(u) == s
  {
    NextThenPrevious(s);
    NextThenPrevious(t);
    PreviousThenNext(s);
  }

  const ZERO := RngState(0, 0)

  /** The state of `new`. */
  const DEFAULT := RngState(0xdeadbeef, 0xf00baa44)

  lemma ZeroIsFixed()
    ensures Next(ZERO) == ZERO
  {}

  class Rng {
    var state: RngState

    constructor ()
      ensures state == DEFAULT
    {
      state := DEFAULT;
    }

    constructor FromSeed(seed: seq<bv8>)
      requires |seed| == 8
      ensures state == SeedState(seed)
    {
      state := SeedState(seed);
    }

    method NextU32() returns (r: bv32)
      modifies this
      ensures state == Next(old(state)) && r == Output(old(state))
    {
      hide RotL26, RotL13, Xor, Mix, Output;
      r := Output(state);
      var s1 := Xor(state.s1, state.s0);
      var s0 := Mix(RotL26(state.s0), s1);
      s1 := RotL13(s1);
      state := RngState(s0, s1);
    }
  }

  /** Four bytes, little-endian. */
  function ReadU32(b: seq<bv8>): bv32
    requires |b| == 4
  {
    (b[0] as bv32) | ((b[1] as bv32) << 8) | ((b[2] as bv32) << 16) | ((b[3] as bv32) << 24)
  }

  function SeedState(seed: seq<bv8>): RngState
    requires |seed| == 8
  {
    if forall i :: 0 <= i < 8 ==> seed[i] == 0 then DEFAULT
    else RngState(ReadU32(seed[..4]), ReadU32(seed[4..]))
  }

  /** The first outputs of the default generator. */
  lemma KnownOutputs()
    ensures Output(DEFAULT) == 0x4f826f95
    ensures Next(DEFAULT) == RngState(0xddf5f450, 0xc29565d4) && Output(Next(DEFAULT)) == 0x40534670
    ensures Next(Next(DEFAULT)) == RngState(0x9d344e55, 0x123083ec)
  {}

  /** Seeds are two little-endian words; the all-zero one means the default state. */
  lemma KnownSeeds()
    ensures SeedState([0, 0, 0, 0, 0, 0, 0, 0]) == DEFAULT
    ensures SeedState([1, 2, 3, 4, 5, 6, 7, 8]) == RngState(0x04030201, 0x08070605)
  {
    var seed: seq<bv8> := [1, 2, 3, 4, 5, 6, 7, 8];
    assert seed[0] != 0 && seed[..4] == [1, 2, 3, 4] && seed[4..] == [5, 6, 7, 8];
  }

  lemma SeedNotZero(seed: seq<bv8>)
    requires |seed| == 8
    ensures SeedState(seed) != ZERO
  {}

  function After(s: RngState, n: nat): RngState {
    if n == 0 then s else Next(After(s, n - 1))
  }

  lemma {:induction false} NeverZero(s: RngState, n: nat)
    requires s != ZERO
    ensures After(s, n) != ZERO
  {
    if n > 0 {
      NeverZero(s, n - 1);
      ZeroIsFixed();
      NextBijective(After(s, n - 1), ZERO);
    }
  }

  /** No run from `new` or from any seed ever reaches the degenerate all-zero state. */
  lemma SeededRunsNeverZero(seed: seq<bv8>, n: nat)
    requires |seed| == 8
    ensures After(SeedState(seed), n) != ZERO && After(DEFAULT, n) != ZERO
  {}
}

module Shuffle {
  import opened Wrappers

  /** `((x as u64) * (n as u64)) >> 32` cut down to u32. */
  function FastMap32(x: nat, n: nat): nat {
    ((x * n) % (TWO_32 * TWO_32)) / TWO_32 % TWO_32
  }

  lemma MulBound(x: nat, n: nat)
    requires x < TWO_32 && n < TWO_32
    ensures x * n <= (TWO_32 - 1) * n
    ensures x * n < TWO_32 * TWO_32
  {
    assert x * n <= (TWO_32 - 1) * n by { MulLe(x, TWO_32 - 1, n); }
  }

  lemma MulLe(a: nat, b: nat, c: nat)
    requires a <= b
    ensures a * c <= b * c
  {}

  /** Nothing is cut off, and the result is in range. */
  lemma FastMapInRange(x: nat, n: nat)
    requires x < TWO_32 && 0 < n < TWO_32
    ensures FastMap32(x, n) == x * n / TWO_32 && FastMap32(x, n) < n
  {
    MulBound(x, n);
    ShiftDown(x * n, n);
  }

  lemma ShiftDown(p: nat, n: nat)
    requires p <= (TWO_32 - 1) * n && 0 < n < TWO_32
    ensures p % (TWO_32 * TWO_32) / TWO_32 % TWO_32 == p / TWO_32 < n
  {}

  /** An input that maps to `j`. */
  function Preimage(j: nat, n: nat): nat
    requires n > 0
  {
    (j * TWO_32 + n - 1) / n
  }

  lemma DivMul(a: nat, n: nat)
    requires n > 0
    ensures a - n < (a / n) * n <= a
  {}

  /** The map is onto: every index is drawn by some 32-bit value. */
  lemma FastMapOnto(j: nat, n: nat)
    requires j < n < TWO_32
    ensures Preimage(j, n) < TWO_32 && FastMap32(Preimage(j, n), n) == j
  {
    var x := Preimage(j, n);
    DivMul(j * TWO_32 + n - 1, n);
    assert j * TWO_32 <= x * n < j * TWO_32 + n;
    if x >= TWO_32 {
      MulLe(TWO_32, x, n);
    }
    FastMapInRange(x, n);
  }

  function Swap<T>(s: seq<T>, i: nat, j: nat): (r: seq<T>)
    requires i < |s| && j < |s|
    ensures |r| == |s|
  {
    s[i := s[j]][j := s[i]]
  }

  ghost predicate Draws(draws: seq<nat>) {
    forall i :: 0 <= i < |draws| ==> draws[i] < TWO_32
  }

  /** The exchanges for positions `i` down to 1, using one draw each. */
  ghost function ShuffleFrom<T>(s: seq<T>, i: nat, draws: seq<nat>): (r: seq<T>)
    requires Draws(draws) && |draws| == i && |s| < TWO_32 - 1
    requires i == 0 || i < |s|
    ensures |r| == |s|
    decreases i
  {
    if i == 0 then s
    else
      var j := FastMap32(draws[0], i + 1);
      FastMapInRange(draws[0], i + 1);
      ShuffleFrom(Swap(s, i, j), i - 1, draws[1..])
  }

  lemma SwapPermutes<T>(s: seq<T>, i: nat, j: nat)
    requires i < |s| && j < |s|
    ensures multiset(Swap(s, i, j)) == multiset(s)
  {}

  /** Every stream of draws yields a permutation. */
  lemma {:induction false} ShufflePermutes<T>(s: seq<T>, i: nat, draws: seq<nat>)
    requires Draws(draws) && |draws| == i && |s| < TWO_32 - 1
    requires i == 0 || i < |s|
    ensures multiset(ShuffleFrom(s, i, draws)) == multiset(s)
    decreases i
  {
    if i > 0 {
      var j := FastMap32(draws[0], i + 1);
      FastMapInRange(draws[0], i + 1);
      SwapPermutes(s, i, j);
      ShufflePermutes(Swap(s, i, j), i - 1, draws[1..]);
    }
  }

  lemma InPrefix<T>(s: seq<T>, q: seq<T>, i: nat)
    requires |s| == |q| && i < |s| && multiset(s) == multiset(q) && s[i + 1..] == q[i + 1..]
    ensures exists j :: 0 <= j <= i && s[j] == q[i]
  {
    var a, b, c := s[..i + 1], q[..i + 1], s[i + 1..];
    assert s == a + c && q == b + c;
    assert multiset(a)[q[i]] == multiset(b)[q[i]] by {
      assert multiset(a + c)[q[i]] == multiset(b + c)[q[i]];
    }
    assert b[i] == q[i];
    assert q[i] in multiset(a);
    var j :| 0 <= j < |a| && a[j] == q[i];
  }

  /** Exchanging the wanted element into place settles one more position. */
  lemma SwapSettles<T>(s: seq<T>, q: seq<T>, i: nat, j: nat)
    requires |s| == |q| && j <= i < |s| && s[j] == q[i] && s[i + 1..] == q[i + 1..]
    ensures Swap(s, i, j)[i..] == q[i..]
  {}

  /** Every permutation is reached by some stream of draws. */
  lemma {:induction false} EveryPermutationReachable<T>(s: seq<T>, q: seq<T>, i: nat) returns (draws: seq<nat>)
    requires |s| == |q| < TWO_32 - 1 && multiset(s) == multiset(q)
    requires if |s| == 0 then i == 0 else i < |s| && s[i + 1..] == q[i + 1..]
    ensures Draws(draws) && |draws| == i && ShuffleFrom(s, i, draws) == q
    decreases i
  {
    hide FastMap32, Preimage, ShuffleFrom, Swap;
    if i == 0 {
      draws := [];
      ShuffleNothing(s, q);
    } else {
      InPrefix(s, q, i);
      var j :| 0 <= j <= i && s[j] == q[i];
      FastMapOnto(j, i + 1);
      SwapPermutes(s, i, j);
      SwapSettles(s, q, i, j);
      var rest := EveryPermutationReachable(Swap(s, i, j), q, i - 1);
      draws := [Preimage(j, i + 1)] + rest;
      ShuffleOne(s, i, j, draws, rest);
    }
  }

  lemma ShuffleNothing<T>(s: seq<T>, q: seq<T>)
    requires |s| == |q| < TWO_32 - 1 && multiset(s) == multiset(q) && (|s| > 0 ==> s[1..] == q[1..])
    ensures ShuffleFrom(s, 0, []) == s == q
  {
    if |s| > 0 {
      InPrefix(s, q, 0);
      assert s == [s[0]] + s[1..] && q == [q[0]] + q[1..];
    }
  }

  lemma ShuffleOne<T>(s: seq<T>, i: nat, j: nat, draws: seq<nat>, rest: seq<nat>)
    requires Draws(draws) && |draws| == i && 0 < i < |s| < TWO_32 - 1 && draws[1..] == rest && j <= i
    requires FastMap32(draws[0], i + 1) == j
    ensures ShuffleFrom(s, i, draws) == ShuffleFrom(Swap(s, i, j), i - 1, rest)
  {}

  /** Positions are filled from the last to the second, one draw each in stream order. */
  lemma KnownShuffle()
    ensures ShuffleFrom([10, 11, 12], 2, [0, 0x8000_0000]) == [12, 11, 10]
    ensures ShuffleFrom([10, 11, 12], 2, [0x8000_0000, 0]) == [12, 10, 11]
  {
    assert FastMap32(0, 3) == 0 && FastMap32(0x8000_0000, 2) == 1;
    assert FastMap32(0x8000_0000, 3) == 1 && FastMap32(0, 2) == 0;
    assert [0, 0x8000_0000][1..] == [0x8000_0000] && [0x8000_0000, 0][1..] == [0];
  }

  /** The in-place shuffle, fed with the generator's outputs. */
  method ShuffleInPlace<T>(xs: array<T>, draws: seq<nat>)
    requires xs.Length < TWO_32 - 1
    requires Draws(draws) && |draws| == if xs.Length == 0 then 0 else xs.Length - 1
    modifies xs
    ensures xs[..] == ShuffleFrom(old(xs[..]), |draws|, draws)
    ensures multiset(xs[..]) == multiset(old(xs[..]))
  {
    var i, k := |draws|, 0;
    ghost var s0 := xs[..];
    while i > 0
      invariant 0 <= i <= |draws| && k == |draws| - i
      invariant ShuffleFrom(xs[..], i, draws[k..]) == ShuffleFrom(s0, |draws|, draws)
      decreases i
    {
      var j := FastMap32(draws[k], i + 1);
      FastMapInRange(draws[k], i + 1);
      ghost var before := xs[..];
      xs[i], xs[j] := xs[j], xs[i];
      assert xs[..] == Swap(before, i, j);
      assert draws[k..][1..] == draws[k + 1..];
      i := i - 1;
      k := k + 1;
    }
    ShufflePermutes(s0, |draws|, draws);
  }
}
