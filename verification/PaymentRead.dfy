/**
 * Loading the payment database from its directory, and what a run of
 * successful writes leaves there (app-rs/src/payments.rs, `PaymentDbState::read`
 * and `from_unsorted_vec`).
 */
module PaymentRead {
  import opened Wrappers
  import opened Payments
  import opened DbState
  import opened PaymentDatabase
  import Name = PaymentIndexName

  datatype ReadError = CannotDeserialize(filename: string) | ContentsMismatch(filename: string)

  // --- Sorting and removing duplicates --- //

  ghost predicate Sorted(ps: seq<BasicPayment>) {
    forall i, j :: 0 <= i < j < |ps| ==> !ps[j].index.Less(ps[i].index)
  }

  method InsertSorted(ps: seq<BasicPayment>, p: BasicPayment) returns (r: seq<BasicPayment>)
    requires Sorted(ps)
    ensures Sorted(r) && multiset(r) == multiset(ps + [p])
  {
    var k := |ps|;
    while k > 0 && p.index.Less(ps[k - 1].index)
      invariant 0 <= k <= |ps|
      invariant forall j :: k <= j < |ps| ==> p.index.Less(ps[j].index)
    {
      k := k - 1;
    }
    r := ps[..k] + [p] + ps[k..];
    InsertAt(ps, p, k);
  }

  lemma InsertAt(ps: seq<BasicPayment>, p: BasicPayment, k: nat)
    requires Sorted(ps) && k <= |ps|
    requires k == 0 || !p.index.Less(ps[k - 1].index)
    requires forall j :: k <= j < |ps| ==> p.index.Less(ps[j].index)
    ensures Sorted(ps[..k] + [p] + ps[k..]) && multiset(ps[..k] + [p] + ps[k..]) == multiset(ps + [p])
  {
    InsertSame(ps, p, k);
  }

  lemma InsertSame(ps: seq<BasicPayment>, p: BasicPayment, k: nat)
    requires k <= |ps|
    ensures multiset(ps[..k] + [p] + ps[k..]) == multiset(ps + [p])
  {
    assert ps == ps[..k] + ps[k..];
  }

  /** `sort_unstable_by` on the index: the order of equal keys is not promised. */
  method SortByIndex(ps: seq<BasicPayment>) returns (r: seq<BasicPayment>)
    ensures Sorted(r) && multiset(r) == multiset(ps)
  {
    r := [];
    for k := 0 to |ps|
      invariant Sorted(r) && multiset(r) == multiset(ps[..k])
    {
      assert ps[..k + 1] == ps[..k] + [ps[k]];
      r := InsertSorted(r, ps[k]);
    }
    assert ps[..|ps|] == ps;
  }

  /** `dedup_by` on the index: of each run of equal keys the first stays. */
  method DedupByIndex(ps: seq<BasicPayment>) returns (r: seq<BasicPayment>)
    requires Sorted(ps)
    ensures StrictlySorted(r)
    ensures forall p :: p in r ==> p in ps
    ensures forall i :: 0 <= i < |ps| ==> HasIndex(r, ps[i].index)
  {
    r := [];
    for k := 0 to |ps|
      invariant StrictlySorted(r)
      invariant forall p :: p in r ==> p in ps
      invariant forall i :: 0 <= i < k ==> HasIndex(r, ps[i].index)
      invariant r == [] <==> k == 0
      invariant r != [] ==> r[|r| - 1].index == ps[k - 1].index
    {
      if r == [] || r[|r| - 1].index != ps[k].index {
        ghost var before := r;
        if k > 0 {
          IndexOrderTotal(ps[k - 1].index, ps[k].index, ps[k].index);
        }
        SortedAppend(r, [ps[k]]);
        r := r + [ps[k]];
        HasIndexSnoc(before, ps[k]);
      }
    }
  }

  predicate HasIndex(ps: seq<BasicPayment>, index: PaymentIndex) {
    exists j :: 0 <= j < |ps| && ps[j].index == index
  }

  lemma HasIndexSnoc(ps: seq<BasicPayment>, p: BasicPayment)
    ensures HasIndex(ps + [p], p.index)
    ensures forall index :: HasIndex(ps, index) ==> HasIndex(ps + [p], index)
  {
    assert (ps + [p])[|ps|] == p;
    forall index | HasIndex(ps, index) ensures HasIndex(ps + [p], index) {
      var j :| 0 <= j < |ps| && ps[j].index == index;
      assert (ps + [p])[j] == ps[j];
    }
  }

  method FromUnsortedVec(ps: seq<BasicPayment>) returns (s: PaymentDbState)
    ensures s.Consistent()
    ensures forall p :: p in s.payments ==> p in ps
    ensures forall p :: p in ps ==> HasIndex(s.payments, p.index)
  {
    var sorted := SortByIndex(ps);
    var unique := DedupByIndex(sorted);
    assert forall p :: p in ps <==> p in multiset(ps);
    assert forall p :: p in sorted <==> p in multiset(sorted);
    s := Rebuild(unique);
  }

  // --- Reading --- //

  /** The file would be accepted: its name is no index, or it holds the payment with that index. */
  predicate Readable(files: Files, name: string)
    requires name in files
  {
    match Name.Parse(name)
    case None => true
    case Some(index) => files[name].PaymentJson? && files[name].payment.index == index
  }

  predicate Holds(files: Files, name: string, p: BasicPayment) {
    name in files && Name.Parse(name) == Some(p.index) && files[name] == PaymentJson(p)
  }

  /** The error names a file that deserves it. */
  predicate Rejects(files: Files, error: ReadError) {
    && error.filename in files && Name.Parse(error.filename).Some?
    && match error
       case CannotDeserialize(name) => files[name].Unreadable?
       case ContentsMismatch(name) =>
         files[name].PaymentJson? && Some(files[name].payment.index) != Name.Parse(name)
  }

  /** What a successful read promises, whatever the visiting order. */
  ghost predicate ReadsAs(files: Files, s: PaymentDbState) {
    && s.Consistent()
    && (forall p :: p in s.payments ==> exists name :: Holds(files, name, p))
    && (forall name, p :: Holds(files, name, p) ==> HasIndex(s.payments, p.index))
  }

  /** The directory visitor: skip unrecognized names, stop at the first bad file, collect the rest. */
  method Visit(files: Files, order: seq<string>) returns (r: Result<seq<BasicPayment>, ReadError>)
    requires forall name :: name in order ==> name in files
    ensures r.Ok? <==> forall i :: 0 <= i < |order| ==> Readable(files, order[i])
    ensures r.Err? ==>
              && Rejects(files, r.error)
              && exists i :: 0 <= i < |order| && order[i] == r.error.filename
                             && forall j :: 0 <= j < i ==> Readable(files, order[j])
    ensures r.Ok? ==> forall p :: p in r.value ==> exists name :: Holds(files, name, p)
    ensures r.Ok? ==> forall i, p :: 0 <= i < |order| && Holds(files, order[i], p) ==> p in r.value
  {
    hide Name.Parse;
    var ps: seq<BasicPayment> := [];
    for k := 0 to |order|
      invariant forall i :: 0 <= i < k ==> Readable(files, order[i])
      invariant forall p :: p in ps ==> exists name :: Holds(files, name, p)
      invariant forall i, p :: 0 <= i < k && Holds(files, order[i], p) ==> p in ps
    {
      var name := order[k];
      match Name.Parse(name)
      case None =>
      case Some(index) =>
        if files[name].Unreadable? { return Err(CannotDeserialize(name)); }
        var p := files[name].payment;
        if p.index != index { return Err(ContentsMismatch(name)); }
        assert Holds(files, name, p);
        ps := ps + [p];
    }
    r := Ok(ps);
  }

  /** `order` is the order in which the directory happens to be visited. */
  method Read(files: Files, order: seq<string>) returns (r: Result<PaymentDbState, ReadError>)
    requires forall name :: name in order <==> name in files
    ensures r.Ok? <==> forall name :: name in files ==> Readable(files, name)
    ensures r.Err? ==> Rejects(files, r.error)
    ensures r.Ok? ==> ReadsAs(files, r.value)
    ensures forall ps :: StrictlySorted(ps) && DiskMatches(files, ps) ==> r == Ok(Rebuild(ps))
  {
    var visited := Visit(files, order);
    if visited.Err? {
      ghost var i :| 0 <= i < |order| && !Readable(files, order[i]);
      assert order[i] in order;
      NeverMatches(files, order[i]);
      return Err(visited.error);
    }
    var t := FromUnsortedVec(visited.value);
    r := Ok(t);
    forall ps | StrictlySorted(ps) && DiskMatches(files, ps) ensures t == Rebuild(ps) {
      ReadIsUnique(files, ps, t);
    }
  }

  /** A directory that mirrors a vector has no file that a read would refuse. */
  lemma NeverMatches(files: Files, name: string)
    requires name in files && !Readable(files, name)
    ensures forall ps :: !DiskMatches(files, ps)
  {
    forall ps ensures !DiskMatches(files, ps) {
      if DiskMatches(files, ps) {
        MirroredIsReadable(files, ps, name);
      }
    }
  }

  lemma MirroredIsReadable(files: Files, payments: seq<BasicPayment>, name: string)
    requires DiskMatches(files, payments) && name in files
    ensures Readable(files, name)
  {
    if Name.Parse(name).Some? {
      var p :| p in payments && name == FileName(p);
      Name.ParseFormat(p.index);
    }
  }

  lemma MemberIsRead(files: Files, ps: seq<BasicPayment>, t: PaymentDbState, p: BasicPayment)
    requires StrictlySorted(ps) && DiskMatches(files, ps) && ReadsAs(files, t)
    requires p in ps
    ensures p in t.payments
  {
    Name.ParseFormat(p.index);
    assert Holds(files, FileName(p), p);
    var j :| 0 <= j < |t.payments| && t.payments[j].index == p.index;
    assert t.payments[j] in t.payments;
    var name :| Holds(files, name, t.payments[j]);
  }

  /** What is read from a directory that mirrors a vector is that vector with rebuilt indexes. */
  lemma ReadIsUnique(files: Files, ps: seq<BasicPayment>, t: PaymentDbState)
    requires StrictlySorted(ps) && DiskMatches(files, ps) && ReadsAs(files, t)
    ensures t == Rebuild(ps)
  {
    forall p ensures p in t.payments <==> p in ps {
      if p in t.payments {
        var name :| Holds(files, name, p);
      }
      if p in ps {
        MemberIsRead(files, ps, t, p);
      }
    }
    StrictlySortedUnique(t.payments, ps);
  }

  // --- Whole runs of successful writes --- //

  datatype Write =
    | Insert(ps: seq<BasicPayment>)
    | Update(p: BasicPayment)
    | SetNote(index: PaymentIndex, note: Option<string>)

  /** The call returns `Ok` on this database if all its file writes succeed. */
  ghost predicate Succeeds(s: PaymentDbState, w: Write) {
    match w
    case Insert(ps) => StrictlySorted(ps) && Newer(s, ps) && NoConflicts(s, ps, |ps|)
    case Update(p) => !OnePanics(s, p)
    case SetNote(index, _) => Find(s.payments, index, |s.payments|).Some?
  }

  /** The new memory and disk, exactly as the methods' contracts give them. */
  function Effect(d: Progress, w: Write): Progress
  {
    match w
    case Insert(ps) => Progress(AppendAll(d.state, ps), WriteAll(d.files, ps), d.changed)
    case Update(p) => StepUpdate(d, p)
    case SetNote(index, note) =>
      match Find(d.state.payments, index, |d.state.payments|)
      case None => d
      case Some(i) =>
        var edited := d.state.payments[i].(note := note);
        Progress(ApplyNote(d.state, i, note), d.files[FileName(edited) := PaymentJson(edited)], d.changed)
  }

  /** The write steers clear of the transitions for which the code keeps stale bits. */
  predicate IndexSafe(s: PaymentDbState, w: Write) {
    match w
    case Insert(_) => true
    case Update(p) =>
      (match Find(s.payments, p.index, |s.payments|)
       case None => true
       case Some(i) => !UnhandledTransition(s.payments[i], p))
    case SetNote(index, note) =>
      (match Find(s.payments, index, |s.payments|)
       case None => true
       case Some(i) => NoteSafe(s.payments[i], note))
  }

  /** What the writes are for: the payments inserted, the payment updated and the note edited are there afterwards. */
  lemma EffectIs(d: Progress, w: Write)
    requires Succeeds(d.state, w)
    ensures var before, after, files := d.state.payments, Effect(d, w).state.payments, Effect(d, w).files;
            match w
            case Insert(ps) => after == before + ps
            case Update(p) =>
              exists i :: 0 <= i < |before| && before[i].index == p.index && after == before[i := p]
            case SetNote(index, note) =>
              exists i :: 0 <= i < |before| && before[i].index == index
                          && after == before[i := before[i].(note := note)]
                          && FileName(after[i]) in files && files[FileName(after[i])] == PaymentJson(after[i])
  {
    var before := d.state.payments;
    match w
    case Insert(ps) =>
    case Update(p) =>
      var i := Find(before, p.index, |before|).value;
      assert before[i].index == p.index;
      assert !OneChanges(d.state, p) ==> before[i := p] == before;
    case SetNote(index, note) =>
      var i := Find(before, index, |before|).value;
      assert before[i].index == index;
  }

  ghost predicate Mirrored(d: Progress) {
    StrictlySorted(d.state.payments) && DiskMatches(d.files, d.state.payments)
  }

  lemma DiskMatchesReplace(files: Files, ps: seq<BasicPayment>, i: nat, p: BasicPayment)
    requires StrictlySorted(ps) && DiskMatches(files, ps) && i < |ps| && ps[i].index == p.index
    ensures DiskMatches(files[FileName(p) := PaymentJson(p)], ps[i := p])
  {
    var files', ps' := files[FileName(p) := PaymentJson(p)], ps[i := p];
    forall q | q in ps' ensures FileName(q) in files' && files'[FileName(q)] == PaymentJson(q) {
      var j :| 0 <= j < |ps'| && ps'[j] == q;
      if j != i {
        assert ps[j] in ps;
        IndexOrderTotal(ps[i].index, ps[j].index, ps[i].index);
        if FileName(q) == FileName(p) {
          Name.FormatInjective(q.index, p.index);
        }
      }
    }
    forall name | name in files' && Name.Parse(name).Some?
      ensures exists q :: q in ps' && name == FileName(q)
    {
      assert ps'[i] == p;
      if name != FileName(p) {
        var q :| q in ps && name == FileName(q);
        var j :| 0 <= j < |ps| && ps[j] == q;
        assert ps'[j] == q;
      }
    }
  }

  lemma StepKeepsMirror(d: Progress, p: BasicPayment)
    requires Mirrored(d)
    ensures Mirrored(StepUpdate(d, p))
  {
    if OneChanges(d.state, p) {
      var i := Find(d.state.payments, p.index, |d.state.payments|).value;
      SortedReplace(d.state.payments, i, p);
      DiskMatchesReplace(d.files, d.state.payments, i, p);
    }
  }

  lemma {:induction false} RunUpdatesKeepsMirror(d: Progress, ps: seq<BasicPayment>)
    requires Mirrored(d)
    ensures Mirrored(RunUpdates(d, ps))
  {
    if ps != [] {
      RunUpdatesKeepsMirror(d, ps[..|ps| - 1]);
      StepKeepsMirror(RunUpdates(d, ps[..|ps| - 1]), ps[|ps| - 1]);
    }
  }

  /** Disk follows memory through every successful write, index-safe or not. */
  lemma EffectKeepsMirror(d: Progress, w: Write)
    requires Mirrored(d) && Succeeds(d.state, w)
    ensures Mirrored(Effect(d, w))
  {
    match w
    case Insert(ps) =>
      SortedAppend(d.state.payments, ps);
      WriteAllKeepsDisk(d.files, d.state.payments, ps);
    case Update(p) => StepKeepsMirror(d, p);
    case SetNote(index, note) =>
      var i := Find(d.state.payments, index, |d.state.payments|).value;
      var p := d.state.payments[i].(note := note);
      SortedReplace(d.state.payments, i, p);
      DiskMatchesReplace(d.files, d.state.payments, i, p);
  }

  /** One successful write from a consistent state stays consistent exactly when it is index-safe. */
  lemma EffectConsistentIff(d: Progress, w: Write)
    requires d.state.Consistent() && Succeeds(d.state, w)
    ensures Effect(d, w).state.Consistent() <==> IndexSafe(d.state, w)
  {
    match w
    case Insert(ps) => AppendKeepsConsistent(d.state, ps);
    case Update(p) =>
      var i := Find(d.state.payments, p.index, |d.state.payments|).value;
      UpdateConsistentIff(d.state, i, p);
    case SetNote(index, note) =>
      var i := Find(d.state.payments, index, |d.state.payments|).value;
      NoteConsistentIff(d.state, i, note);
  }

  /** A run of successful writes. */
  ghost predicate GoodRun(d: Progress, ws: seq<Write>)
    decreases |ws|
  {
    ws == [] || (Succeeds(d.state, ws[0]) && GoodRun(Effect(d, ws[0]), ws[1..]))
  }

  /** ... in which every write steers clear of stale bits. */
  ghost predicate SafeRun(d: Progress, ws: seq<Write>)
    decreases |ws|
  {
    ws == [] || (IndexSafe(d.state, ws[0]) && SafeRun(Effect(d, ws[0]), ws[1..]))
  }

  function RunEffect(d: Progress, ws: seq<Write>): Progress
    decreases |ws|
  {
    if ws == [] then d else RunEffect(Effect(d, ws[0]), ws[1..])
  }

  lemma {:induction false} RunKeepsMirror(d: Progress, ws: seq<Write>)
    requires Mirrored(d) && GoodRun(d, ws)
    ensures Mirrored(RunEffect(d, ws))
    decreases |ws|
  {
    if ws != [] {
      EffectKeepsMirror(d, ws[0]);
      RunKeepsMirror(Effect(d, ws[0]), ws[1..]);
    }
  }

  lemma ConsistentIsRebuilt(s: PaymentDbState)
    ensures s.Consistent() <==> StrictlySorted(s.payments) && s == Rebuild(s.payments)
  {}

  /**
   * After any run of successful writes, stale bits or not, only one state can
   * be read back: the vector in memory with rebuilt indexes. It is the state in
   * memory exactly when that is consistent.
   */
  lemma GoodRunReadsBack(d: Progress, ws: seq<Write>, t: PaymentDbState)
    requires Mirrored(d) && GoodRun(d, ws)
    ensures var d' := RunEffect(d, ws);
            && Mirrored(d')
            && (ReadsAs(d'.files, t) ==>
                  t == Rebuild(d'.state.payments) && (t == d'.state <==> d'.state.Consistent()))
  {
    hide GoodRun, RunEffect, ReadsAs, Rebuild;
    RunKeepsMirror(d, ws);
    var d' := RunEffect(d, ws);
    ConsistentIsRebuilt(d'.state);
    if ReadsAs(d'.files, t) {
      ReadIsUnique(d'.files, d'.state.payments, t);
    }
  }

  /** So from a consistent start, any run of index-safe writes reads back as it is in memory. */
  lemma {:induction false} SafeRunReadsBack(d: Progress, ws: seq<Write>, t: PaymentDbState)
    requires d.state.Consistent() && Mirrored(d) && GoodRun(d, ws) && SafeRun(d, ws)
    ensures var d' := RunEffect(d, ws);
            d'.state.Consistent() && (ReadsAs(d'.files, t) ==> t == d'.state)
    decreases |ws|
  {
    if ws == [] {
      GoodRunReadsBack(d, ws, t);
    } else {
      EffectKeepsMirror(d, ws[0]);
      EffectConsistentIff(d, ws[0]);
      SafeRunReadsBack(Effect(d, ws[0]), ws[1..], t);
    }
  }

  lemma EffectKeepsIndex(d: Progress, w: Write, v: nat)
    requires v < |d.state.payments|
    ensures v < |Effect(d, w).state.payments|
    ensures Effect(d, w).state.payments[v].index == d.state.payments[v].index
  {}

  /** A position handed out by a lookup names the same payment through every later write. */
  lemma {:induction false} VecIdxIsStable(d: Progress, ws: seq<Write>, v: nat)
    requires v < |d.state.payments|
    ensures var later := RunEffect(d, ws).state.payments;
            v < |later| && later[v].index == d.state.payments[v].index
    decreases |ws|
  {
    hide Effect;
    if ws != [] {
      EffectKeepsIndex(d, ws[0], v);
      VecIdxIsStable(Effect(d, ws[0]), ws[1..], v);
    }
  }

  // --- Reloading after a failed insert --- //

  /**
   * A failed write touches its own file only, so a reload is refused exactly
   * when that file is left there in an unacceptable state. Otherwise the part
   * of the batch written before comes back, and that file's payment if it is there.
   */
  lemma FailedInsertReload(files: Files, payments: seq<BasicPayment>, ps: seq<BasicPayment>, written: nat,
                           files': Files)
    requires DiskMatches(files, payments) && StrictlySorted(payments + ps) && written < |ps|
    requires files' - {FileName(ps[written])} == WriteAll(files, ps[..written]) - {FileName(ps[written])}
    ensures var name, kept := FileName(ps[written]), payments + ps[..written];
            && ((forall n :: n in files' ==> Readable(files', n)) <==> (name in files' ==> Readable(files', name)))
            && (name !in files' ==> StrictlySorted(kept) && DiskMatches(files', kept))
            && (name in files' && Readable(files', name) ==>
                  && files'[name].PaymentJson?
                  && StrictlySorted(kept + [files'[name].payment])
                  && DiskMatches(files', kept + [files'[name].payment]))
            && (name in files' && files'[name].Unreadable? ==> !Readable(files', name))
  {
    hide Name.Parse, Name.Format, WriteAll;
    var name, kept, base := FileName(ps[written]), payments + ps[..written], WriteAll(files, ps[..written]);
    Name.ParseFormat(ps[written].index);
    assert payments + ps == kept + ps[written..];
    PrefixSorted(kept, ps[written..]);
    WriteAllKeepsDisk(files, payments, ps[..written]);
    NotYetWritten(base, kept, ps[written]);
    forall n | n in files' && n != name ensures Readable(files', n) {
      assert n in files' - {name} && (files' - {name})[n] == files'[n] && (base - {name})[n] == base[n];
      MirroredIsReadable(base, kept, n);
    }
    assert base - {name} == base;
    if name !in files' {
      assert files' - {name} == files';
    } else if Readable(files', name) {
      var p := files'[name].payment;
      assert files' == (files' - {name})[name := PaymentJson(p)];
      LastMayDiffer(kept, ps[written], p);
      DiskMatchesSnoc(base, kept, p);
    }
  }

  lemma PrefixSorted(a: seq<BasicPayment>, b: seq<BasicPayment>)
    requires StrictlySorted(a + b) && b != []
    ensures StrictlySorted(a) && StrictlySorted(a + [b[0]])
  {
    assert forall i :: 0 <= i < |a| ==> (a + b)[i] == a[i];
    assert (a + b)[|a|] == b[0];
  }

  lemma NotYetWritten(files: Files, ps: seq<BasicPayment>, p: BasicPayment)
    requires DiskMatches(files, ps) && StrictlySorted(ps + [p])
    ensures FileName(p) !in files
  {
    Name.ParseFormat(p.index);
    LastMayDiffer(ps, p, p);
    if FileName(p) in files {
      var q :| q in ps && FileName(p) == FileName(q);
      Name.FormatInjective(p.index, q.index);
    }
  }

  lemma LastMayDiffer(ps: seq<BasicPayment>, p: BasicPayment, q: BasicPayment)
    requires StrictlySorted(ps + [p]) && p.index == q.index
    ensures StrictlySorted(ps + [q]) && forall x :: x in ps ==> x.index != q.index
  {
    forall i | 0 <= i < |ps| ensures ps[i].index.Less(q.index) {
      assert (ps + [p])[i].index.Less((ps + [p])[|ps|].index);
    }
    PrefixSorted(ps, [p]);
    SortedAppend(ps, [q]);
  }
}
