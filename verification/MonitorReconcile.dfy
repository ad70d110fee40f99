/**
 * Boot-time reconciliation of the two copies of the channel state, with
 * Google taking precedence (node/src/persister.rs).
 */
module MonitorReconcile {
  import opened Wrappers

  /** A file of the channel monitors directory: the id is its name, the data is the ciphertext. */
  type FileId = string
  type Data = seq<bv8>
  datatype VfsFile = VfsFile(id: FileId, data: Data)

  type Store = map<FileId, Data>

  /** Google's entries, plus those that only Lexe has. */
  function Merge<V>(google: map<FileId, V>, lexe: map<FileId, V>): (m: map<FileId, V>)
    ensures m.Keys == google.Keys + lexe.Keys
    ensures forall id :: id in google ==> m[id] == google[id]
    ensures forall id :: id in lexe && id !in google ==> m[id] == lexe[id]
  {
    lexe + google
  }

  /** `files` lists the store, each file once. */
  ghost predicate Lists(files: seq<VfsFile>, store: Store) {
    && (forall i, j :: 0 <= i < j < |files| ==> files[i].id != files[j].id)
    && (forall i :: 0 <= i < |files| ==> files[i].id in store && store[files[i].id] == files[i].data)
    && (forall id :: id in store ==> exists i :: 0 <= i < |files| && files[i].id == id)
  }

  /** `.map(|f| (&f.id, f)).collect::<HashMap>()`. */
  function ToMap(files: seq<VfsFile>): (m: Store)
  {
    if files == [] then map[]
    else
      var last := files[|files| - 1];
      ToMap(files[..|files| - 1])[last.id := last.data]
  }

  lemma {:induction false} ToMapMembers(files: seq<VfsFile>)
    requires forall i, j :: 0 <= i < j < |files| ==> files[i].id != files[j].id
    ensures forall i :: 0 <= i < |files| ==> files[i].id in ToMap(files) && ToMap(files)[files[i].id] == files[i].data
    ensures forall id :: id in ToMap(files) ==> exists i :: 0 <= i < |files| && files[i].id == id
  {
    if files != [] {
      var init, last := files[..|files| - 1], files[|files| - 1];
      ToMapMembers(init);
      forall i | 0 <= i < |files| ensures files[i].id in ToMap(files) && ToMap(files)[files[i].id] == files[i].data {
        assert i < |init| ==> files[i] == init[i];
      }
      forall id | id in ToMap(files) ensures exists i :: 0 <= i < |files| && files[i].id == id {
        if id == last.id {
          assert files[|files| - 1].id == id;
        } else {
          assert id in ToMap(init);
          var i :| 0 <= i < |init| && init[i].id == id;
          assert files[i].id == id;
        }
      }
    }
  }

  lemma ListsIsToMap(files: seq<VfsFile>, store: Store)
    requires Lists(files, store)
    ensures ToMap(files) == store
  {
    ToMapMembers(files);
    forall id ensures id in ToMap(files) <==> id in store {
      if id in store {
        var i :| 0 <= i < |files| && files[i].id == id;
        assert files[i].id in ToMap(files);
      }
    }
    forall id | id in store ensures ToMap(files)[id] == store[id] {
      var i :| 0 <= i < |files| && files[i].id == id;
    }
  }

  lemma ListsSnoc(files: seq<VfsFile>, store: Store, f: VfsFile)
    requires Lists(files, store) && f.id !in store
    ensures Lists(files + [f], store[f.id := f.data])
  {
    var files', store' := files + [f], store[f.id := f.data];
    forall id | id in store' ensures exists i :: 0 <= i < |files'| && files'[i].id == id {
      if id == f.id {
        assert files'[|files|].id == id;
      } else {
        var i :| 0 <= i < |files| && files[i].id == id;
        assert files'[i].id == id;
      }
    }
  }

  /** Every state that reconciliation can pass through or stop in. */
  ghost predicate Between(g0: Store, l0: Store, g: Store, l: Store) {
    && g0.Keys <= g.Keys <= g0.Keys + l0.Keys
    && l0.Keys <= l.Keys <= g0.Keys + l0.Keys
    && (forall id :: id in g ==> g[id] == Merge(g0, l0)[id])
    && (forall id :: id in l ==> l[id] == Merge(g0, l0)[id] || (id in l0 && l[id] == l0[id]))
    && (forall id :: id in l && id !in g0 ==> l[id] == l0[id])
  }

  /** Reconciling again from wherever an earlier attempt stopped aims at the same merged result. */
  lemma RerunSameMerge(g0: Store, l0: Store, g: Store, l: Store)
    requires Between(g0, l0, g, l)
    ensures Merge(g, l) == Merge(g0, l0)
  {}

  /** The file ids on which the two copies still disagree. */
  ghost predicate Settled(g: Store, l: Store, id: FileId) {
    id in g && id in l && g[id] == l[id]
  }

  /** Both remote stores. `writes` counts the write requests issued, `failures` the requests that failed. */
  class Stores {
    var google: Store
    var lexe: Store
    ghost var writes: nat
    ghost var failures: nat

    constructor (google: Store, lexe: Store)
      ensures this.google == google && this.lexe == lexe && writes == 0 && failures == 0
    {
      this.google := google;
      this.lexe := lexe;
      writes := 0;
      failures := 0;
    }

    /** The token that every request to Lexe needs. */
    method GetToken() returns (ok: bool)
      modifies this`failures
      ensures failures == old(failures) + if ok then 0 else 1
    {
      ok := *;
      failures := if ok then failures else failures + 1;
    }

    /** Create or overwrite in Lexe's keyed store; a failed request may still have taken effect. */
    method WriteLexe(f: VfsFile) returns (ok: bool)
      modifies this
      ensures google == old(google) && writes == old(writes) + 1
      ensures lexe == old(lexe)[f.id := f.data] || (!ok && lexe == old(lexe))
      ensures failures == old(failures) + if ok then 0 else 1
    {
      ok := *;
      failures := if ok then failures else failures + 1;
      var effect: bool := *;
      writes := writes + 1;
      if ok || effect { lexe := lexe[f.id := f.data]; }
    }

    /** Create in Drive; refuses ids that exist, and a failed request has no effect. */
    method CreateGoogle(f: VfsFile) returns (ok: bool)
      modifies this
      ensures lexe == old(lexe) && writes == old(writes) + 1
      ensures f.id in old(google) ==> !ok
      ensures google == if ok then old(google)[f.id := f.data] else old(google)
      ensures failures == old(failures) + if ok || f.id in old(google) then 0 else 1
    {
      ok := *;
      writes := writes + 1;
      failures := if ok || f.id in google then failures else failures + 1;
      if f.id in google { ok := false; }
      if ok { google := google[f.id := f.data]; }
    }

    /** Update in Drive if the id exists, where a failure may have taken effect; else create. */
    method UpsertGoogle(f: VfsFile) returns (ok: bool)
      modifies this
      ensures lexe == old(lexe) && writes == old(writes) + 1
      ensures google == old(google)[f.id := f.data] || (!ok && google == old(google))
      ensures failures == old(failures) + if ok then 0 else 1
    {
      if f.id in google {
        ok := *;
        failures := if ok then failures else failures + 1;
        var effect: bool := *;
        writes := writes + 1;
        if ok || effect { google := google[f.id := f.data]; }
      } else {
        ok := CreateGoogle(f);
      }
    }
  }

  /** The number of additional attempts for important objects. */
  const IMPORTANT_PERSIST_RETRIES: nat := 5

  /**
   * `upsert_to_gdrive_and_lexe`: both upserts run to their end, each with up
   * to five retries. `Ok` means both stores hold the file; on `Err` each store
   * holds the file or what it held before.
   */
  method UpsertToGdriveAndLexe(stores: Stores, f: VfsFile)
    returns (r: Result<(), string>, ghost googleTries: nat, ghost lexeTries: nat)
    modifies stores
    ensures r.Ok? ==>
              stores.google == old(stores.google)[f.id := f.data] && stores.lexe == old(stores.lexe)[f.id := f.data]
    ensures stores.google == old(stores.google) || stores.google == old(stores.google)[f.id := f.data]
    ensures stores.lexe == old(stores.lexe) || stores.lexe == old(stores.lexe)[f.id := f.data]
    ensures stores.writes == old(stores.writes) + googleTries + lexeTries
    ensures 1 <= googleTries <= IMPORTANT_PERSIST_RETRIES + 1 && lexeTries <= IMPORTANT_PERSIST_RETRIES + 1
    ensures r == Err("Failed to upsert to GVFS") ==> googleTries == IMPORTANT_PERSIST_RETRIES + 1
    ensures r == Err("Failed to upsert to Lexe DB") ==> lexeTries == IMPORTANT_PERSIST_RETRIES + 1
    ensures r == Err("Could not get token") ==> lexeTries == 0
    ensures r.Ok? <==> stores.failures + 2 == old(stores.failures) + googleTries + lexeTries
    ensures r.Err? ==> stores.failures > old(stores.failures)
    ensures r == Err("Could not get token") ==> stores.failures == old(stores.failures) + googleTries
    ensures r == Err("Failed to upsert to Lexe DB") ==>
              stores.failures + 1 == old(stores.failures) + googleTries + lexeTries
    ensures r == Err("Failed to upsert to GVFS") ==>
              stores.failures >= old(stores.failures) + IMPORTANT_PERSIST_RETRIES + 1
  {
    var google := stores.UpsertGoogle(f);
    googleTries, lexeTries := 1, 0;
    var i := 0;
    while i < IMPORTANT_PERSIST_RETRIES && !google
      invariant i <= IMPORTANT_PERSIST_RETRIES && googleTries == 1 + i
      invariant stores.writes == old(stores.writes) + googleTries && stores.lexe == old(stores.lexe)
      invariant stores.failures == old(stores.failures) + googleTries - if google then 1 else 0
      invariant stores.google == old(stores.google)[f.id := f.data] || (!google && stores.google == old(stores.google))
    {
      google := stores.UpsertGoogle(f);
      googleTries := googleTries + 1;
      i := i + 1;
    }
    var token := stores.GetToken();
    var lexe := false;
    if token {
      lexe := stores.WriteLexe(f);
      lexeTries := 1;
      i := 0;
      while i < IMPORTANT_PERSIST_RETRIES && !lexe
        invariant i <= IMPORTANT_PERSIST_RETRIES && lexeTries == 1 + i
        invariant stores.writes == old(stores.writes) + googleTries + lexeTries
        invariant stores.failures ==
                  old(stores.failures) + googleTries + lexeTries - (if google then 1 else 0) - if lexe then 1 else 0
        invariant stores.google == old(stores.google)[f.id := f.data] ||
                  (!google && stores.google == old(stores.google))
        invariant stores.lexe == old(stores.lexe)[f.id := f.data] || (!lexe && stores.lexe == old(stores.lexe))
      {
        lexe := stores.WriteLexe(f);
        lexeTries := lexeTries + 1;
        i := i + 1;
      }
    }
    if !google {
      r := Err("Failed to upsert to GVFS");
    } else if !token {
      r := Err("Could not get token");
    } else if !lexe {
      r := Err("Failed to upsert to Lexe DB");
    } else {
      r := Ok(());
    }
  }

  datatype FixError = NoToken | WriteFailed(id: FileId)

  /**
   * `compare_channel_monitors_and_fix_errors`, for any iteration order over
   * the ids. On `Ok` both stores hold Google's map plus Lexe-only entries and
   * exactly that is returned; on any stop in between a rerun aims at the same.
   */
  method CompareAndFix(stores: Stores, googleFiles: seq<VfsFile>, lexeFiles: seq<VfsFile>)
    returns (r: Result<seq<VfsFile>, FixError>)
    requires Lists(googleFiles, stores.google) && Lists(lexeFiles, stores.lexe)
    modifies stores
    ensures Between(old(stores.google), old(stores.lexe), stores.google, stores.lexe)
    ensures r.Ok? ==> stores.google == stores.lexe == Merge(old(stores.google), old(stores.lexe))
    ensures r.Ok? ==> Lists(r.value, stores.google) && googleFiles <= r.value
    ensures old(stores.google) == old(stores.lexe) ==> r == Ok(googleFiles) && stores.writes == old(stores.writes)
    ensures r.Ok? && stores.writes == old(stores.writes) ==> old(stores.google) == old(stores.lexe)
    ensures stores.failures == old(stores.failures) + if r.Ok? then 0 else 1
  {
    hide *;
    ghost var g0, l0 := stores.google, stores.lexe;
    var googleMap, lexeMap := ToMap(googleFiles), ToMap(lexeFiles);
    ListsIsToMap(googleFiles, g0);
    ListsIsToMap(lexeFiles, l0);
    LoopStart(g0, l0, googleFiles);
    if googleMap == lexeMap {
      return Ok(googleFiles);
    }
    var todo := googleMap.Keys + lexeMap.Keys;
    var toAppend: seq<VfsFile> := [];
    assert googleFiles + toAppend == googleFiles;
    while todo != {}
      invariant todo <= g0.Keys + l0.Keys
      invariant LoopInv(g0, l0, stores.google, stores.lexe, todo, googleFiles + toAppend)
      invariant stores.writes >= old(stores.writes) && stores.failures == old(stores.failures)
      invariant stores.writes == old(stores.writes) ==> stores.google == g0 && stores.lexe == l0
      decreases todo
    {
      var id :| id in todo;
      LoopStep(g0, l0, stores.google, stores.lexe, todo, googleFiles + toAppend, id);
      if id in googleMap {
        if id !in lexeMap || googleMap[id] != lexeMap[id] {
          var token := stores.GetToken();
          if !token { return Err(NoToken); }
          var ok := stores.WriteLexe(VfsFile(id, googleMap[id]));
          if !ok { return Err(WriteFailed(id)); }
        }
      } else {
        var f := VfsFile(id, lexeMap[id]);
        var ok := stores.CreateGoogle(f);
        if !ok { return Err(WriteFailed(id)); }
        assert googleFiles + (toAppend + [f]) == googleFiles + toAppend + [f];
        toAppend := toAppend + [f];
      }
      todo := todo - {id};
    }
    AllSettled(g0, l0, stores.google, stores.lexe, googleFiles + toAppend);
    r := Ok(googleFiles + toAppend);
  }

  ghost predicate Untouched(g0: Store, l0: Store, g: Store, l: Store, id: FileId) {
    && (id in g <==> id in g0) && (id in g0 ==> g[id] == g0[id])
    && (id in l <==> id in l0) && (id in l0 ==> l[id] == l0[id])
  }

  ghost predicate LoopInv(g0: Store, l0: Store, g: Store, l: Store, todo: set<FileId>, files: seq<VfsFile>) {
    && Between(g0, l0, g, l)
    && Lists(files, g)
    && (forall id :: id in g0.Keys + l0.Keys && id !in todo ==> Settled(g, l, id))
    && (forall id :: id in todo ==> Untouched(g0, l0, g, l, id))
  }

  lemma LoopStart(g0: Store, l0: Store, files: seq<VfsFile>)
    requires Lists(files, g0)
    ensures LoopInv(g0, l0, g0, l0, g0.Keys + l0.Keys, files)
    ensures Between(g0, l0, g0, l0)
    ensures g0 == l0 ==> Merge(g0, l0) == g0
  {}

  /** The three ways in which one id is handled. */
  lemma LoopStep(g0: Store, l0: Store, g: Store, l: Store, todo: set<FileId>, files: seq<VfsFile>, id: FileId)
    requires LoopInv(g0, l0, g, l, todo, files) && id in todo && todo <= g0.Keys + l0.Keys
    ensures Between(g0, l0, g, l)
    ensures id in g0 ==> LoopInv(g0, l0, g, l[id := g0[id]], todo - {id}, files)
    ensures id in g0 && id in l0 && g0[id] == l0[id] ==> l[id := g0[id]] == l
    ensures id !in g0 ==>
              && id in l0 && id !in g
              && LoopInv(g0, l0, g[id := l0[id]], l, todo - {id}, files + [VfsFile(id, l0[id])])
    ensures id in g0 ==> Between(g0, l0, g, l[id := g0[id]])
  {
    hide Between, Lists, Merge;
    assert Untouched(g0, l0, g, l, id);
    FixOne(g0, l0, g, l, id);
    if id !in g0 {
      ListsSnoc(files, g, VfsFile(id, l0[id]));
    }
  }

  lemma FixOne(g0: Store, l0: Store, g: Store, l: Store, id: FileId)
    requires Between(g0, l0, g, l) && Untouched(g0, l0, g, l, id) && id in g0.Keys + l0.Keys
    ensures id in g0 ==> Between(g0, l0, g, l[id := g0[id]])
    ensures id !in g0 ==> Between(g0, l0, g[id := l0[id]], l)
  {}

  lemma AllSettled(g0: Store, l0: Store, g: Store, l: Store, files: seq<VfsFile>)
    requires LoopInv(g0, l0, g, l, {}, files)
    ensures g == l == Merge(g0, l0)
    ensures Between(g0, l0, g, l) && Lists(files, g)
  {}

  // --- The channel manager: one file, authenticated before it is copied --- //

  function Lookup(store: Store, id: FileId): Option<Data> {
    if id in store then Some(store[id]) else None
  }

  function Or(a: Option<Data>, b: Option<Data>): Option<Data> {
    if a.Some? then a else b
  }

  predicate Decrypts(decrypt: Data -> Option<Data>, copy: Option<Data>) {
    copy.None? || decrypt(copy.value).Some?
  }

  /**
   * `decrypt_channel_manager_and_fix_errors`. Google's copy is never altered,
   * nothing that fails to decrypt is ever copied, and both copies agree on `Ok`.
   */
  method DecryptManagerAndFix(stores: Stores, id: FileId, decrypt: Data -> Option<Data>,
                              google: Option<Data>, lexe: Option<Data>)
    returns (r: Result<Option<Data>, string>)
    requires google == Lookup(stores.google, id) && lexe == Lookup(stores.lexe, id)
    modifies stores
    ensures stores.google - {id} == old(stores.google) - {id} && stores.lexe - {id} == old(stores.lexe) - {id}
    ensures google.Some? ==> stores.google == old(stores.google)
    ensures Or(Lookup(stores.google, id), Lookup(stores.lexe, id)) == Or(google, lexe)
    ensures r.Ok? ==> Lookup(stores.google, id) == Lookup(stores.lexe, id) == Or(google, lexe)
    ensures r.Ok? ==>
              match Or(google, lexe)
              case None => r.value.None?
              case Some(copy) => decrypt(copy).Some? && r.value == decrypt(copy)
    ensures google == lexe ==> stores.writes == old(stores.writes) && (r.Ok? <==> Decrypts(decrypt, google))
    ensures stores.writes == old(stores.writes) ==>
              stores.google == old(stores.google) && stores.lexe == old(stores.lexe)
    ensures r.Ok? <==> stores.failures == old(stores.failures) && Decrypts(decrypt, google) && Decrypts(decrypt, lexe)
    ensures google != lexe && !Decrypts(decrypt, google) ==> r == Err("Failed to decrypt file from Google")
    ensures google != lexe && Decrypts(decrypt, google) && !Decrypts(decrypt, lexe) ==>
              r == Err("Failed to decrypt file from Lexe")
    ensures r == Err("Could not get token") ==>
              google.Some? && google != lexe && stores.writes == old(stores.writes)
    ensures r.Err? && stores.writes == old(stores.writes) && r.error != "Could not get token" <==>
              !Decrypts(decrypt, google) || !Decrypts(decrypt, lexe)
  {
    if google == lexe {
      if google.None? { return Ok(None); }
      var plain := decrypt(google.value);
      return if plain.Some? then Ok(plain) else Err("Failed to decrypt file");
    }
    if !Decrypts(decrypt, google) { return Err("Failed to decrypt file from Google"); }
    if !Decrypts(decrypt, lexe) { return Err("Failed to decrypt file from Lexe"); }
    if google.Some? {
      var token := stores.GetToken();
      if !token { return Err("Could not get token"); }
      var ok := stores.WriteLexe(VfsFile(id, google.value));
      if !ok { return Err("Failed to correct Lexe DB version"); }
      r := Ok(decrypt(google.value));
    } else {
      var ok := stores.CreateGoogle(VfsFile(id, lexe.value));
      if !ok { return Err("Failed to copy Lexe's data to GDrive"); }
      r := Ok(decrypt(lexe.value));
    }
  }
}
