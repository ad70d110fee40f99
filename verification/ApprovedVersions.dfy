/**
 * Rolling approval of node versions: at most three, the newest by semver
 * precedence (node/src/approved_versions.rs).
 */
module ApprovedVersions {
  import opened Wrappers
  import Sets
  import Strings

  // --- Precedence, section 11 of Semantic Versioning 2.0.0 --- //

  datatype Identifier = Numeric(n: nat) | Alphanumeric(s: string) {
    predicate Less(other: Identifier) {
      match (this, other)
      case (Numeric(a), Numeric(b)) => a < b
      case (Numeric(_), Alphanumeric(_)) => true
      case (Alphanumeric(_), Numeric(_)) => false
      case (Alphanumeric(a), Alphanumeric(b)) => Strings.Less(a, b)
    }
  }

  /** Field by field; a longer list wins if all its preceding fields are equal. */
  predicate FieldsLess(a: seq<Identifier>, b: seq<Identifier>) {
    b != [] && (a == [] || a[0].Less(b[0]) || (a[0] == b[0] && FieldsLess(a[1..], b[1..])))
  }

  datatype Version = Version(major: nat, minor: nat, patch: nat, pre: seq<Identifier>) {
    /** A pre-release comes before its release. */
    predicate PreLess(other: Version) {
      pre != [] && (other.pre == [] || FieldsLess(pre, other.pre))
    }

    predicate Less(other: Version) {
      || major < other.major
      || (major == other.major && minor < other.minor)
      || (major == other.major && minor == other.minor && patch < other.patch)
      || (major == other.major && minor == other.minor && patch == other.patch && PreLess(other))
    }
  }

  lemma IdentifierOrder(a: Identifier, b: Identifier, c: Identifier)
    ensures !a.Less(a)
    ensures a.Less(b) && b.Less(c) ==> a.Less(c)
    ensures a.Less(b) || a == b || b.Less(a)
  {
    if a.Alphanumeric? {
      Strings.Irreflexive(a.s);
      if b.Alphanumeric? {
        Strings.Total(a.s, b.s);
        if c.Alphanumeric? && a.Less(b) && b.Less(c) { Strings.Transitive(a.s, b.s, c.s); }
      }
    }
  }

  lemma {:induction false} FieldsIrreflexive(a: seq<Identifier>)
    ensures !FieldsLess(a, a)
  {
    if a != [] {
      IdentifierOrder(a[0], a[0], a[0]);
      FieldsIrreflexive(a[1..]);
    }
  }

  lemma {:induction false} FieldsTransitive(a: seq<Identifier>, b: seq<Identifier>, c: seq<Identifier>)
    requires FieldsLess(a, b) && FieldsLess(b, c)
    ensures FieldsLess(a, c)
  {
    if a != [] {
      IdentifierOrder(a[0], b[0], c[0]);
      if a[0] == b[0] == c[0] && !a[0].Less(b[0]) { FieldsTransitive(a[1..], b[1..], c[1..]); }
    }
  }

  lemma {:induction false} FieldsTotal(a: seq<Identifier>, b: seq<Identifier>)
    ensures FieldsLess(a, b) || a == b || FieldsLess(b, a)
  {
    if a != [] && b != [] {
      IdentifierOrder(a[0], b[0], a[0]);
      if a[0] == b[0] {
        FieldsTotal(a[1..], b[1..]);
        assert a == [a[0]] + a[1..];
        assert b == [b[0]] + b[1..];
      }
    }
  }

  lemma Irreflexive(a: Version)
    ensures !a.Less(a)
  {
    FieldsIrreflexive(a.pre);
  }

  lemma Transitive(a: Version, b: Version, c: Version)
    requires a.Less(b) && b.Less(c)
    ensures a.Less(c)
  {
    if FieldsLess(a.pre, b.pre) && FieldsLess(b.pre, c.pre) { FieldsTransitive(a.pre, b.pre, c.pre); }
  }

  lemma Total(a: Version, b: Version)
    ensures a.Less(b) || a == b || b.Less(a)
  {
    FieldsTotal(a.pre, b.pre);
  }

  // --- The clauses of section 11, as laws --- //

  /** Major, minor and patch are compared numerically, in this order, whatever follows. */
  lemma NumbersFirst(a: Version, b: Version)
    ensures a.major < b.major ==> a.Less(b) && !b.Less(a)
    ensures a.major == b.major && a.minor < b.minor ==> a.Less(b) && !b.Less(a)
    ensures a.major == b.major && a.minor == b.minor && a.patch < b.patch ==> a.Less(b) && !b.Less(a)
  {}

  /** With equal numbers, a pre-release comes before the release, and pre-releases compare by their fields. */
  lemma PreReleaseFirst(major: nat, minor: nat, patch: nat, p: seq<Identifier>, q: seq<Identifier>)
    ensures p != [] ==> Version(major, minor, patch, p).Less(Version(major, minor, patch, []))
    ensures p != [] && q != [] ==>
              (Version(major, minor, patch, p).Less(Version(major, minor, patch, q)) <==> FieldsLess(p, q))
  {}

  /** After equal fields the first different one decides, and a longer list comes after its own prefix. */
  lemma {:induction false} FieldsDecide(p: seq<Identifier>, x: Identifier, s: seq<Identifier>,
                                        y: Identifier, t: seq<Identifier>)
    ensures x != y ==> (FieldsLess(p + [x] + s, p + [y] + t) <==> x.Less(y))
    ensures FieldsLess(p, p + [x] + s) && !FieldsLess(p + [x] + s, p)
  {
    if p != [] {
      IdentifierOrder(p[0], p[0], p[0]);
      FieldsDecide(p[1..], x, s, y, t);
      assert (p + [x] + s)[1..] == p[1..] + [x] + s;
      assert (p + [y] + t)[1..] == p[1..] + [y] + t;
    }
  }

  /** Numeric fields compare as numbers, others as ASCII strings, and numeric ones come first. */
  lemma FieldKinds(m: nat, n: nat, a: string, b: string)
    ensures Numeric(m).Less(Numeric(n)) <==> m < n
    ensures Numeric(m).Less(Alphanumeric(a)) && !Alphanumeric(a).Less(Numeric(m))
    ensures Alphanumeric(a).Less(Alphanumeric(b)) <==> Strings.Less(a, b)
  {}

  // --- Keeping the newest --- //

  type Measurement = nat
  type Approved = map<Version, Measurement>

  const MAX_SIZE: nat := 3

  ghost predicate IsOldest(vs: set<Version>, v: Version) {
    v in vs && forall w :: w in vs && w != v ==> v.Less(w)
  }

  lemma {:induction false} OldestExists(vs: set<Version>) returns (v: Version)
    requires vs != {}
    ensures IsOldest(vs, v)
    decreases vs
  {
    v :| v in vs;
    var rest := vs - {v};
    assert vs == rest + {v};
    if rest != {} {
      var w := OldestExists(rest);
      Total(v, w);
      if w.Less(v) {
        v := w;
      } else {
        forall x | x in rest && x != w ensures v.Less(x) { Transitive(v, w, x); }
      }
    }
  }

  lemma OldestUnique(vs: set<Version>, v: Version, w: Version)
    requires IsOldest(vs, v) && IsOldest(vs, w)
    ensures v == w
  {
    Irreflexive(v);
    if v.Less(w) && w.Less(v) { Transitive(v, w, v); }
  }

  ghost function Oldest(vs: set<Version>): (v: Version)
    requires vs != {}
    ensures IsOldest(vs, v)
  {
    assert exists v :: IsOldest(vs, v) by {
      var v := OldestExists(vs);
    }
    var v :| IsOldest(vs, v);
    v
  }

  /** Drops the oldest version until at most `k` are left. */
  ghost function KeepNewest(a: Approved, k: nat): (r: Approved)
    decreases |a|
  {
    if |a| <= k then a else KeepNewest(a - {Oldest(a.Keys)}, k)
  }

  /** What is kept: part of the input unchanged, of the right size, and newer than everything dropped. */
  lemma {:induction false} KeepNewestIs(a: Approved, k: nat)
    ensures var r := KeepNewest(a, k);
            && r.Keys <= a.Keys && (forall v :: v in r ==> r[v] == a[v])
            && |r| == (if |a| <= k then |a| else k)
            && forall v, w :: v in r && w in a && w !in r ==> w.Less(v)
    decreases |a|
  {
    if |a| > k {
      var o := Oldest(a.Keys);
      var a' := a - {o};
      assert a'.Keys == a.Keys - {o} && |a'| == |a'.Keys| && |a| == |a.Keys|;
      KeepNewestIs(a', k);
    }
  }

  /** That description fits only one map. */
  lemma KeepNewestUnique(a: Approved, k: nat, r: Approved)
    requires r.Keys <= a.Keys && (forall v :: v in r ==> r[v] == a[v])
    requires |r| == (if |a| <= k then |a| else k)
    requires forall v, w :: v in r && w in a && w !in r ==> w.Less(v)
    ensures r == KeepNewest(a, k)
  {
    KeepNewestIs(a, k);
    var s := KeepNewest(a, k);
    if x :| x in r && x !in s {
      SameSizeDiffer(r.Keys, s.Keys, x);
      var y :| y in s && y !in r;
      Transitive(x, y, x);
      Irreflexive(x);
    } else {
      Sets.SubsetSameSize(r.Keys, s.Keys);
    }
  }

  lemma SameSizeDiffer(a: set<Version>, b: set<Version>, x: Version)
    requires |a| == |b| && x in a && x !in b
    ensures exists y :: y in b && y !in a
  {
    if b <= a {
      Sets.SubsetSameSize(b, a);
    }
  }

  // --- Provisioning --- //

  datatype ApproveError = MeasurementMismatch | YankedMeasurementUnknown | TooOld

  /** The list before trimming: the current version added, yanked versions removed. */
  function Candidates(approved: Approved, cur: Version, m: Measurement, yanked: set<Version>): Approved {
    approved[cur := m] - yanked
  }

  /** The list after an `Ok` provision, or nothing. */
  ghost function Provisioned(approved: Approved, cur: Version, m: Measurement, yanked: set<Version>): Option<Approved> {
    if cur in approved && approved[cur] != m then None
    else
      var kept := KeepNewest(Candidates(approved, cur, m, yanked), MAX_SIZE);
      if cur in kept then Some(kept) else None
  }

  /** A yanked version is on the list with a measurement that is not known as yanked. */
  predicate YankUnknown(all: Approved, yanked: seq<Version>, yankedMeasurements: set<Measurement>) {
    exists i :: 0 <= i < |yanked| && yanked[i] in all && all[yanked[i]] !in yankedMeasurements
  }

  function Members<T(==)>(s: seq<T>): set<T> { set x | x in s }

  /** `revoked` lists exactly the entries of `all` that are not in `kept`, each once. */
  ghost predicate Partition(all: Approved, kept: Approved, revoked: seq<(Version, Measurement)>) {
    && (forall i :: 0 <= i < |revoked| ==> revoked[i].0 in all && all[revoked[i].0] == revoked[i].1)
    && (forall i :: 0 <= i < |revoked| ==> revoked[i].0 !in kept)
    && (forall i, j :: 0 <= i < j < |revoked| ==> revoked[i].0 != revoked[j].0)
    && (forall v :: v in kept ==> v in all && kept[v] == all[v])
    && (forall v :: v in all && v !in kept ==> exists i :: 0 <= i < |revoked| && revoked[i].0 == v)
  }

  lemma PartitionMoves(all: Approved, kept: Approved, revoked: seq<(Version, Measurement)>, v: Version)
    requires Partition(all, kept, revoked) && v in kept
    ensures Partition(all, kept - {v}, revoked + [(v, kept[v])])
  {
    var revoked' := revoked + [(v, kept[v])];
    forall w | w in all && w !in kept - {v} ensures exists i :: 0 <= i < |revoked'| && revoked'[i].0 == w {
      if w == v {
        assert revoked'[|revoked|].0 == w;
      } else {
        var i :| 0 <= i < |revoked| && revoked[i].0 == w;
        assert revoked'[i].0 == w;
      }
    }
  }

  /** Revoked from the oldest on, all older than what is left. */
  ghost predicate OldestFirst(revoked: seq<(Version, Measurement)>, approved: Approved) {
    && (forall i, j :: 0 <= i < j < |revoked| ==> revoked[i].0.Less(revoked[j].0))
    && (forall i, v :: 0 <= i < |revoked| && v in approved ==> revoked[i].0.Less(v))
  }

  lemma OldestFirstIs(revoked: seq<(Version, Measurement)>, approved: Approved)
    ensures revoked == [] ==> OldestFirst(revoked, approved)
    ensures OldestFirst(revoked, approved) ==>
              forall i, j :: 0 <= i < j < |revoked| ==> revoked[i].0.Less(revoked[j].0)
  {}

  lemma PopKeepsOrder(revoked: seq<(Version, Measurement)>, approved: Approved, v: Version, m: Measurement)
    requires approved != map[] && v == Oldest(approved.Keys)
    ensures OldestFirst(revoked, approved) ==> OldestFirst(revoked + [(v, m)], approved - {v})
  {
    hide Version.Less;
  }

  class ApprovedVersions {
    var approved: Approved

    constructor ()
      ensures approved == map[]
    {
      approved := map[];
    }

    /** `pop_first`: the first entry in key order. */
    method PopFirst() returns (v: Version, m: Measurement)
      requires approved != map[]
      modifies this
      ensures v == Oldest(old(approved).Keys) && m == old(approved)[v] && approved == old(approved) - {v}
    {
      var keys := approved.Keys;
      v :| v in keys;
      var rest := keys - {v};
      while rest != {}
        invariant approved == old(approved) && rest <= keys && v in keys && v !in rest
        invariant forall w :: w in keys && w !in rest && w != v ==> v.Less(w)
        decreases rest
      {
        var w :| w in rest;
        Total(v, w);
        if w.Less(v) {
          forall x | x in keys && x !in rest && x != v ensures w.Less(x) { Transitive(w, v, x); }
          v := w;
        }
        rest := rest - {w};
      }
      OldestUnique(keys, v, Oldest(keys));
      m := approved[v];
      approved := approved - {v};
    }

    /**
     * `approve_and_revoke`. The current version and the yanked lists are the
     * release's constants. On `Ok` the list holds exactly the newest three (or
     * all, if fewer) candidates, everything else is revoked, and `updated`
     * says whether the list changed.
     */
    method ApproveAndRevoke(cur: Version, m: Measurement, yanked: seq<Version>, yankedMeasurements: set<Measurement>)
      returns (r: Result<(bool, seq<(Version, Measurement)>), ApproveError>)
      modifies this
      ensures r == Err(MeasurementMismatch) <==> cur in old(approved) && old(approved)[cur] != m
      ensures r == Err(MeasurementMismatch) ==> approved == old(approved)
      ensures r.Ok? ==> Provisioned(old(approved), cur, m, Members(yanked)) == Some(approved)
      ensures r.Ok? ==> Partition(old(approved)[cur := m], approved, r.value.1)
      ensures r.Ok? ==> (r.value.0 <==> approved != old(approved))
      ensures r.Ok? && yanked == [] ==>
                forall i, j :: 0 <= i < j < |r.value.1| ==> r.value.1[i].0.Less(r.value.1[j].0)
      ensures r == Err(YankedMeasurementUnknown) <==>
                !(cur in old(approved) && old(approved)[cur] != m) &&
                    YankUnknown(old(approved)[cur := m], yanked, yankedMeasurements)
      ensures r == Err(TooOld) ==>
                && Provisioned(old(approved), cur, m, Members(yanked)) == None
                && approved == KeepNewest(Candidates(old(approved), cur, m, Members(yanked)), MAX_SIZE)
      ensures r.Ok? <==>
                && Provisioned(old(approved), cur, m, Members(yanked)).Some?
                && !YankUnknown(old(approved)[cur := m], yanked, yankedMeasurements)
    {
      hide OldestFirst, Version.Less;
      ghost var all := approved[cur := m];
      var updated := false;
      if cur in approved {
        if approved[cur] != m { return Err(MeasurementMismatch); }
        assert all == approved;
      } else {
        approved := approved[cur := m];
        updated := true;
      }
      var revoked;
      revoked, updated, r := RevokeYanked(all, updated, yanked, yankedMeasurements);
      if r.Err? { return; }
      OldestFirstIs(revoked, approved);
      ghost var base := approved;
      assert base == Candidates(old(approved), cur, m, Members(yanked));
      while |approved| > MAX_SIZE
        invariant KeepNewest(approved, MAX_SIZE) == KeepNewest(base, MAX_SIZE)
        invariant Partition(all, approved, revoked)
        invariant updated <==> revoked != [] || cur !in old(approved)
        invariant yanked == [] ==> OldestFirst(revoked, approved)
        decreases |approved|
      {
        ghost var before := approved;
        var v, vm := PopFirst();
        PartitionMoves(all, before, revoked, v);
        PopKeepsOrder(revoked, before, v, vm);
        revoked := revoked + [(v, vm)];
        updated := true;
      }
      OldestFirstIs(revoked, approved);
      if cur !in approved { return Err(TooOld); }
      r := Ok((updated, revoked));
      ChangedIff(old(approved), all, approved, revoked, cur);
    }

    /** Removes every yanked version from the list; its measurement must be known as yanked. */
    method RevokeYanked(ghost all: Approved, wasUpdated: bool, yanked: seq<Version>,
                        yankedMeasurements: set<Measurement>)
      returns (revoked: seq<(Version, Measurement)>, updated: bool,
               r: Result<(bool, seq<(Version, Measurement)>), ApproveError>)
      requires approved == all
      modifies this
      ensures r.Err? <==> YankUnknown(all, yanked, yankedMeasurements)
      ensures r.Err? ==> r == Err(YankedMeasurementUnknown)
      ensures r.Ok? ==> approved == all - Members(yanked) && Partition(all, approved, revoked)
      ensures r.Ok? ==> (updated <==> wasUpdated || revoked != [])
      ensures yanked == [] ==> revoked == []
    {
      revoked, updated := [], wasUpdated;
      for i := 0 to |yanked|
        invariant approved == all - Members(yanked[..i]) && |revoked| <= i
        invariant Partition(all, approved, revoked)
        invariant updated <==> wasUpdated || revoked != []
        invariant forall j :: 0 <= j < i && yanked[j] in all ==> all[yanked[j]] in yankedMeasurements
      {
        var v := yanked[i];
        assert Members(yanked[..i + 1]) == Members(yanked[..i]) + {v};
        if v in approved {
          var vm := approved[v];
          PartitionMoves(all, approved, revoked, v);
          approved := approved - {v};
          if vm !in yankedMeasurements { r := Err(YankedMeasurementUnknown); return; }
          revoked := revoked + [(v, vm)];
          updated := true;
        }
      }
      assert yanked[..|yanked|] == yanked;
      r := Ok((updated, revoked));
    }
  }

  lemma ChangedIff(before: Approved, all: Approved, after: Approved, revoked: seq<(Version, Measurement)>, cur: Version)
    requires cur in all && all == before[cur := all[cur]] && (cur in before ==> before[cur] == all[cur])
    requires Partition(all, after, revoked) && cur in after
    ensures after != before <==> revoked != [] || cur !in before
  {
    if revoked != [] {
      assert revoked[0].0 in all && revoked[0].0 !in after;
    } else {
      assert forall v :: v in all ==> v in after;
    }
  }

  // --- Whole sequences of provisions --- //

  datatype Provision = Provision(cur: Version, m: Measurement)

  /** The approved list and everything that was ever revoked. */
  datatype Ledger = Ledger(approved: Approved, revoked: set<Version>)

  /** A run of provisions with the yanked lists empty, as shipped; nothing if one of them is refused. */
  ghost function RunProvisions(l: Ledger, ps: seq<Provision>): Option<Ledger>
    decreases |ps|
  {
    if ps == [] then Some(l)
    else
      match Provisioned(l.approved, ps[0].cur, ps[0].m, {})
      case None => None
      case Some(b) => RunProvisions(Ledger(b, l.revoked + (l.approved.Keys + {ps[0].cur} - b.Keys)), ps[1..])
  }

  /** Once anything was revoked the list is full, and every revoked version is older than every approved one. */
  ghost predicate Ratchet(a: Approved, revoked: set<Version>) {
    revoked != {} ==> |a| == MAX_SIZE && forall r, v :: r in revoked && v in a ==> r.Less(v)
  }

  lemma ProvisionedIs(a: Approved, cur: Version, m: Measurement)
    requires Provisioned(a, cur, m, {}).Some?
    ensures Provisioned(a, cur, m, {}).value == KeepNewest(a[cur := m], MAX_SIZE)
    ensures cur in Provisioned(a, cur, m, {}).value
  {
    assert Candidates(a, cur, m, {}) == a[cur := m];
  }

  /** A release with a new major version is always provisioned, on every list. */
  lemma NewMajorIsProvisioned(a: Approved, cur: Version, m: Measurement)
    requires forall v :: v in a ==> v.major < cur.major
    ensures Provisioned(a, cur, m, {}).Some?
  {
    hide KeepNewest, Version.Less;
    assert cur !in a;
    var all := Candidates(a, cur, m, {});
    assert all == a[cur := m];
    KeepNewestIs(all, MAX_SIZE);
    var kept := KeepNewest(all, MAX_SIZE);
    forall v | v in a ensures !cur.Less(v) { NumbersFirst(v, cur); }
    assert cur in all.Keys && |all| == |all.Keys| && |kept| == |kept.Keys|;
    var v :| v in kept.Keys;
    assert v == cur || v in a;
  }

  lemma ProvisionKeepsRatchet(a: Approved, revoked: set<Version>, p: Provision)
    requires Ratchet(a, revoked) && Provisioned(a, p.cur, p.m, {}).Some?
    ensures var b := Provisioned(a, p.cur, p.m, {}).value;
            Ratchet(b, revoked + (a.Keys + {p.cur} - b.Keys))
  {
    hide KeepNewest, Version.Less, Provisioned, Candidates;
    var all := a[p.cur := p.m];
    ProvisionedIs(a, p.cur, p.m);
    KeepNewestIs(all, MAX_SIZE);
    var b := KeepNewest(all, MAX_SIZE);
    var dropped := a.Keys + {p.cur} - b.Keys;
    assert all.Keys == a.Keys + {p.cur};
    if revoked + dropped != {} {
      FullAfterRevoking(a, all, b, revoked);
      forall r, v | r in revoked + dropped && v in b ensures r.Less(v) {
        if r in revoked { RevokedStaysBelow(a, all, b, revoked, p.cur, r, v); }
      }
    }
  }

  lemma FullAfterRevoking(a: Approved, all: Approved, b: Approved, revoked: set<Version>)
    requires Ratchet(a, revoked) && a.Keys <= all.Keys && b == KeepNewest(all, MAX_SIZE)
    requires revoked != {} || exists d :: d in all && d !in b
    ensures |b| == MAX_SIZE
  {
    KeepNewestIs(all, MAX_SIZE);
    Sets.SubsetSize(a.Keys, all.Keys);
    assert |a| == |a.Keys| && |all| == |all.Keys| && |b| == |b.Keys|;
    if |all| <= MAX_SIZE {
      Sets.SubsetSameSize(b.Keys, all.Keys);
    }
  }

  /** The newly approved version displaced something of the full list, so it is newer than all that was ever revoked. */
  lemma RevokedStaysBelow(a: Approved, all: Approved, b: Approved, revoked: set<Version>, cur: Version,
                          r: Version, v: Version)
    requires Ratchet(a, revoked) && r in revoked && v in b && cur in b
    requires cur in all && all == a[cur := all[cur]] && b == KeepNewest(all, MAX_SIZE)
    ensures r.Less(v)
  {
    KeepNewestIs(all, MAX_SIZE);
    if v !in a {
      assert v == cur && all.Keys == a.Keys + {cur};
      assert |all| == |all.Keys| == |a.Keys| + 1 && |a| == |a.Keys| && |b| == |b.Keys|;
      var w :| w in all && w !in b;
      assert w in a && w.Less(cur);
      Transitive(r, w, cur);
    }
  }

  /** Over any sequence of successful provisions, a version once revoked is never approved again. */
  lemma {:induction false} NoResurrection(l: Ledger, ps: seq<Provision>)
    requires Ratchet(l.approved, l.revoked)
    ensures var end := RunProvisions(l, ps);
            end.Some? ==>
              && Ratchet(end.value.approved, end.value.revoked)
              && l.revoked <= end.value.revoked && end.value.revoked !! end.value.approved.Keys
    decreases |ps|
  {
    hide Provisioned;
    if ps == [] {
      forall r | r in l.revoked && r in l.approved ensures r.Less(r) {}
      forall r: Version ensures !r.Less(r) { Irreflexive(r); }
    } else if Provisioned(l.approved, ps[0].cur, ps[0].m, {}).Some? {
      ProvisionKeepsRatchet(l.approved, l.revoked, ps[0]);
      var b := Provisioned(l.approved, ps[0].cur, ps[0].m, {}).value;
      NoResurrection(Ledger(b, l.revoked + (l.approved.Keys + {ps[0].cur} - b.Keys)), ps[1..]);
    }
  }

  // --- The claim needs the shipped, empty yanked lists --- //

  function Release(n: nat): Version { Version(n, 0, 0, []) }

  lemma FourthDisplacesFirst(m: Measurement)
    ensures Provisioned(map[Release(1) := m, Release(2) := m, Release(3) := m], Release(4), m, {}) ==
            Some(map[Release(2) := m, Release(3) := m, Release(4) := m])
  {
    var a0: Approved := map[Release(1) := m, Release(2) := m, Release(3) := m];
    var a1: Approved := map[Release(2) := m, Release(3) := m, Release(4) := m];
    var all := Candidates(a0, Release(4), m, {});
    assert a1.Keys == {Release(2), Release(3), Release(4)};
    assert all.Keys == {Release(1), Release(2), Release(3), Release(4)};
    assert |a1| == |a1.Keys| && |all| == |all.Keys|;
    KeepNewestUnique(all, MAX_SIZE, a1);
  }

  lemma YankLeavesOne(m: Measurement)
    ensures Provisioned(map[Release(2) := m, Release(3) := m, Release(4) := m], Release(5), m,
                        {Release(2), Release(3), Release(4)}) == Some(map[Release(5) := m])
  {
    var a1: Approved := map[Release(2) := m, Release(3) := m, Release(4) := m];
    var a2: Approved := map[Release(5) := m];
    assert Candidates(a1, Release(5), m, {Release(2), Release(3), Release(4)}) == a2;
    assert a2.Keys == {Release(5)} && |a2| == |a2.Keys|;
  }

  lemma RoomForOld(m: Measurement)
    ensures Provisioned(map[Release(5) := m], Release(1), m, {}) == Some(map[Release(5) := m, Release(1) := m])
  {
    var a3: Approved := map[Release(5) := m, Release(1) := m];
    assert Candidates(map[Release(5) := m], Release(1), m, {}) == a3;
    assert a3.Keys == {Release(5), Release(1)} && |a3| == |a3.Keys|;
  }

  /**
   * Whether a release that is not on a list of legal size gets onto it:
   * exactly when it does not yank itself, and its yanks leave room, or
   * something older on the list to displace.
   */
  lemma ReturnsIff(a: Approved, r: Version, m: Measurement, yanked: set<Version>)
    requires r !in a && |a| <= MAX_SIZE
    ensures Provisioned(a, r, m, yanked).Some? <==>
              r !in yanked && (|a - yanked| < MAX_SIZE || exists v :: v in a && v !in yanked && v.Less(r))
  {
    hide KeepNewest, Version.Less, Provisioned, Candidates;
    var b := a - yanked;
    NewcomerIs(a, r, m, yanked);
    KeepNewestIs(Candidates(a, r, m, yanked), MAX_SIZE);
    SmallerList(a, b);
    JoinsIff(b, r, m);
  }

  lemma NewcomerIs(a: Approved, r: Version, m: Measurement, yanked: set<Version>)
    requires r !in a
    ensures Provisioned(a, r, m, yanked).Some? <==> r in KeepNewest(Candidates(a, r, m, yanked), MAX_SIZE)
    ensures if r in yanked then r !in Candidates(a, r, m, yanked)
            else Candidates(a, r, m, yanked) == (a - yanked)[r := m]
    ensures forall v :: v in a - yanked <==> v in a && v !in yanked
  {
    hide KeepNewest, Version.Less;
  }

  lemma SmallerList(a: Approved, b: Approved)
    requires b.Keys <= a.Keys
    ensures |b| <= |a| && (|b| == |a| ==> b.Keys == a.Keys)
  {
    Sets.SubsetSize(b.Keys, a.Keys);
    assert |b| == |b.Keys| && |a| == |a.Keys|;
    if |b| == |a| { Sets.SubsetSameSize(b.Keys, a.Keys); }
  }

  lemma JoinsIff(b: Approved, r: Version, m: Measurement)
    requires r !in b && |b| <= MAX_SIZE
    ensures r in KeepNewest(b[r := m], MAX_SIZE) <==> |b| < MAX_SIZE || exists v :: v in b && v.Less(r)
  {
    hide KeepNewest, Version.Less;
    var all := b[r := m];
    assert all.Keys == b.Keys + {r};
    assert |all| == |all.Keys| == |b.Keys| + 1 && |b| == |b.Keys|;
    KeepNewestIs(all, MAX_SIZE);
    var kept := KeepNewest(all, MAX_SIZE);
    assert |kept| == |kept.Keys|;
    if |b| == MAX_SIZE {
      if r in kept {
        var w :| w in all && w !in kept by { if all.Keys <= kept.Keys { Sets.SubsetSize(all.Keys, kept.Keys); } }
        assert w in b && w.Less(r);
      } else {
        Sets.SubsetSameSize(kept.Keys, b.Keys);
        forall v | v in b ensures !v.Less(r) {
          assert v in kept && r.Less(v);
          if v.Less(r) { Transitive(v, r, v); Irreflexive(v); }
        }
      }
    } else {
      Sets.SubsetSameSize(kept.Keys, all.Keys);
    }
  }

  /** A revoked version brings itself back exactly when it yanks something on the list, and not itself. */
  lemma YankerReturnsIff(a: Approved, revoked: set<Version>, yanked: set<Version>, r: Version, m: Measurement)
    requires Ratchet(a, revoked) && r in revoked
    ensures Provisioned(a, r, m, yanked).Some? <==> r !in yanked && exists v :: v in a && v in yanked
  {
    hide KeepNewest, Version.Less, Provisioned;
    Irreflexive(r);
    ReturnsIff(a, r, m, yanked);
    forall v | v in a ensures !v.Less(r) {
      assert r.Less(v);
      if v.Less(r) { Transitive(r, v, r); }
    }
    SmallerList(a, a - yanked);
    assert forall v :: v in (a - yanked).Keys <==> v in a && v !in yanked;
    if forall v :: v in a ==> v !in yanked { assert a - yanked == a; }
  }

  /**
   * After a release that yanks versions from a list above everything revoked:
   * an older release can bring a revoked version back exactly when the yank has
   * left room, or when that version is newer than the yanking release itself.
   */
  lemma YankReturnsIff(a: Approved, revoked: set<Version>, p: Provision, yanked: set<Version>,
                       r: Version, m: Measurement)
    requires Ratchet(a, revoked) && r in revoked && r != p.cur && Provisioned(a, p.cur, p.m, yanked).Some?
    ensures var b := Provisioned(a, p.cur, p.m, yanked).value;
            Provisioned(b, r, m, {}).Some? <==> |b| < MAX_SIZE || p.cur.Less(r)
  {
    hide KeepNewest, Version.Less;
    KeepNewestIs(Candidates(a, p.cur, p.m, yanked), MAX_SIZE);
    var b := KeepNewest(Candidates(a, p.cur, p.m, yanked), MAX_SIZE);
    Irreflexive(r);
    forall v | v in b && v != p.cur ensures !v.Less(r) && v != r {
      assert v in a && r.Less(v);
      if v.Less(r) { Transitive(r, v, r); }
    }
    assert b - {} == b;
    ReturnsIff(b, r, m, {});
  }

  /** A release that yanks the other approved versions makes room for one revoked earlier. */
  lemma YankingAllowsResurrection(m: Measurement) returns (a0: Approved, a1: Approved, a2: Approved, a3: Approved)
    ensures Release(1) in a0
    ensures Provisioned(a0, Release(4), m, {}) == Some(a1) && Release(1) !in a1
    ensures Provisioned(a1, Release(5), m, {Release(2), Release(3), Release(4)}) == Some(a2)
    ensures Provisioned(a2, Release(1), m, {}) == Some(a3) && Release(1) in a3
  {
    hide Provisioned;
    FourthDisplacesFirst(m);
    YankLeavesOne(m);
    RoomForOld(m);
    a0 := map[Release(1) := m, Release(2) := m, Release(3) := m];
    a1 := map[Release(2) := m, Release(3) := m, Release(4) := m];
    a2 := map[Release(5) := m];
    a3 := map[Release(5) := m, Release(1) := m];
  }
}
