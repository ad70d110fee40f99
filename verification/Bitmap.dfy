/**
 * RoaringBitmap as a finite set of naturals, with the two order statistics
 * that the payment lookups use.
 */
module Bitmap {
  import opened Wrappers

  ghost predicate StrictlyIncreasing(e: seq<nat>) {
    forall i, j :: 0 <= i < j < |e| ==> e[i] < e[j]
  }

  /** `e` lists the members of `s` from smallest to largest. */
  ghost predicate Enumerates(e: seq<nat>, s: set<nat>) {
    StrictlyIncreasing(e) && forall x :: x in e <==> x in s
  }

  function AtMost(s: set<nat>, i: nat): (r: set<nat>)
  {
    set x | x in s && x <= i
  }

  /** The number of members that are at most `i`. */
  function Rank(s: set<nat>, i: nat): (r: nat)
  {
    |AtMost(s, i)|
  }

  lemma {:induction false} MinExists(s: set<nat>, x: nat)
    requires x in s
    ensures exists m :: m in s && forall y :: y in s ==> m <= y
    decreases x
  {
    if y :| y in s && y < x {
      MinExists(s, y);
    }
  }

  function Min(s: set<nat>): (m: nat)
    requires s != {}
    ensures m in s && forall y :: y in s ==> m <= y
  {
    assert exists m :: m in s && forall y :: y in s ==> m <= y by {
      ghost var x :| x in s;
      MinExists(s, x);
    }
    var m :| m in s && forall y :: y in s ==> m <= y;
    m
  }

  /** The k-th smallest member, counting from zero. */
  function Select(s: set<nat>, k: nat): (r: Option<nat>)
    ensures r.Some? <==> k < |s|
    ensures r.Some? ==> r.value in s
    decreases k
  {
    if s == {} then None
    else if k == 0 then Some(Min(s))
    else Select(s - {Min(s)}, k - 1)
  }

  lemma EnumeratesTail(s: set<nat>, e: seq<nat>)
    requires Enumerates(e, s) && e != []
    ensures s != {} && Min(s) == e[0]
    ensures Enumerates(e[1..], s - {e[0]})
  {
    assert e[0] in e;
    assert Min(s) in e;
    forall x ensures x in e[1..] <==> x in s - {e[0]} {
      if x in s - {e[0]} {
        var i :| 0 <= i < |e| && e[i] == x;
        assert e[1..][i - 1] == x;
      }
    }
  }

  /** `Select` reads off the ascending enumeration of the set. */
  lemma {:induction false} SelectEnumeration(s: set<nat>, e: seq<nat>, k: nat)
    requires Enumerates(e, s)
    ensures |s| == |e|
    ensures Select(s, k) == if k < |e| then Some(e[k]) else None
    decreases |e|
  {
    if e == [] {
      assert s == {} by {
        assert forall x :: x in s ==> x in e;
      }
    } else {
      EnumeratesTail(s, e);
      SelectEnumeration(s - {e[0]}, e[1..], if k == 0 then 0 else k - 1);
      assert |s| == |s - {e[0]}| + 1;
    }
  }

  /** Rank and Select undo each other: the k-th member has exactly k+1 members at or below it. */
  lemma RankOfSelect(s: set<nat>, e: seq<nat>, k: nat)
    requires Enumerates(e, s) && k < |e|
    ensures Select(s, k) == Some(e[k])
    ensures Rank(s, e[k]) == k + 1
  {
    forall x ensures x in e[..k + 1] <==> x in AtMost(s, e[k]) {
      if x in AtMost(s, e[k]) {
        var i :| 0 <= i < |e| && e[i] == x;
        assert e[..k + 1][i] == x;
      }
    }
    SelectEnumeration(AtMost(s, e[k]), e[..k + 1], 0);
    SelectEnumeration(s, e, k);
  }

  /** The members in ascending order, as the bitmap's iterator yields them. */
  function Ascending(s: set<nat>): (e: seq<nat>)
    ensures Enumerates(e, s)
  {
    if s == {} then []
    else
      var m := Min(s);
      var rest := Ascending(s - {m});
      assert forall i :: 0 <= i < |rest| ==> rest[i] in rest;
      [m] + rest
  }

  lemma AscendingUnfold(s: set<nat>, e: seq<nat>)
    requires Enumerates(e, s)
    ensures if e == [] then Ascending(s) == []
            else s != {} && Ascending(s) == [Min(s)] + Ascending(s - {Min(s)})
  {
    if e == [] {
      assert forall x :: x in s ==> x in e;
    } else {
      assert e[0] in e;
    }
  }

  /** A set has only one ascending enumeration. */
  lemma {:induction false} EnumerationUnique(s: set<nat>, e: seq<nat>)
    requires Enumerates(e, s)
    ensures e == Ascending(s)
    decreases |e|
  {
    hide Enumerates, Ascending, Min;
    AscendingUnfold(s, e);
    if e != [] {
      EnumeratesTail(s, e);
      EnumerationUnique(s - {e[0]}, e[1..]);
    }
  }
}
