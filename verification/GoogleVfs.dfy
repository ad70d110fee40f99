/**
 * The Google Drive VFS: an opaque blob store addressed by generated ids,
 * behind a complete cache from file id to Drive id (gdrive/src/gvfs.rs).
 */
module GoogleVfs {
  import opened Wrappers
  import opened GvfsFileId
  import Strings

  /** The VFS directory of singleton objects, whose listing is refused. */
  const SINGLETON_DIRECTORY := "."

  /** Drive's generated ids, opaque but for equality. */
  type Gid = string
  type Data = seq<bv8>
  datatype GFile = GFile(name: string, binary: bool, data: Data)
  type Drive = map<Gid, GFile>
  type Cache = map<VfsFileId, Gid>
  type View = map<VfsFileId, Data>

  // --- The cache invariant and the abstract map --- //

  /** Every cached id points to the Drive file that carries its encoded name. */
  ghost predicate Sound(drive: Drive, cache: Cache) {
    forall id :: id in cache ==>
      Encodable(id) && cache[id] in drive && drive[cache[id]].name == Join(id) && drive[cache[id]].binary
  }

  /** Every Drive file in the root is cached. */
  ghost predicate Complete(drive: Drive, cache: Cache) {
    forall g :: g in drive ==> exists id :: id in cache && cache[id] == g
  }

  ghost predicate Exact(drive: Drive, cache: Cache) { Sound(drive, cache) && Complete(drive, cache) }

  /** The plain map that the VFS stands for. */
  ghost function Abstract(drive: Drive, cache: Cache): (v: View)
    requires Sound(drive, cache)
    ensures v.Keys == cache.Keys
  {
    map id | id in cache :: drive[cache[id]].data
  }

  ghost predicate UniqueNames(drive: Drive) {
    forall g, h :: g in drive && h in drive && drive[g].name == drive[h].name ==> g == h
  }

  /** The cache is one-to-one, so no file exists twice in Drive. */
  lemma ExactIsOneToOne(drive: Drive, cache: Cache)
    requires Exact(drive, cache)
    ensures forall a, b :: a in cache && b in cache && cache[a] == cache[b] ==> a == b
    ensures UniqueNames(drive)
  {
    forall a, b | a in cache && b in cache && cache[a] == cache[b] ensures a == b {
      JoinInjective(a, b);
    }
    forall g, h | g in drive && h in drive && drive[g].name == drive[h].name ensures g == h {
      var a :| a in cache && cache[a] == g;
      var b :| b in cache && cache[b] == h;
      JoinInjective(a, b);
    }
  }

  /** Absence from the cache is absence from the store. */
  lemma AbsentIsAbsent(drive: Drive, cache: Cache, id: VfsFileId)
    requires Exact(drive, cache) && Encodable(id)
    ensures id !in cache <==> forall g :: g in drive ==> drive[g].name != Join(id)
  {
    if id in cache {
      var g := cache[id];
      assert g in drive && drive[g].name == Join(id);
    } else {
      forall g | g in drive ensures drive[g].name != Join(id) {
        var a :| a in cache && cache[a] == g;
        if Join(a) == Join(id) { JoinInjective(a, id); }
      }
    }
  }

  lemma CreateSound(drive: Drive, cache: Cache, id: VfsFileId, g: Gid, f: GFile)
    requires Sound(drive, cache) && Encodable(id) && f.name == Join(id) && f.binary && id !in cache && g !in drive
    ensures Sound(drive[g := f], cache[id := g])
    ensures Abstract(drive[g := f], cache[id := g]) == Abstract(drive, cache)[id := f.data]
  {
    hide Join, Encodable;
    assert forall a :: a in cache ==> cache[a] in drive && drive[g := f][cache[a]] == drive[cache[a]];
  }

  lemma CreateComplete(drive: Drive, cache: Cache, id: VfsFileId, g: Gid, f: GFile)
    requires Complete(drive, cache) && id !in cache
    ensures Complete(drive[g := f], cache[id := g])
  {
    var drive', cache' := drive[g := f], cache[id := g];
    forall h | h in drive' ensures exists a :: a in cache' && cache'[a] == h {
      if h == g {
        assert cache'[id] == g;
      } else {
        var a :| a in cache && cache[a] == h;
        assert cache'[a] == h;
      }
    }
  }

  lemma CreateExact(drive: Drive, cache: Cache, id: VfsFileId, g: Gid, data: Data)
    requires Exact(drive, cache) && Encodable(id) && id !in cache && g !in drive
    ensures var drive', cache' := drive[g := GFile(Join(id), true, data)], cache[id := g];
            Exact(drive', cache') && Abstract(drive', cache') == Abstract(drive, cache)[id := data]
  {
    hide Join, Encodable, Sound, Complete;
    CreateSound(drive, cache, id, g, GFile(Join(id), true, data));
    CreateComplete(drive, cache, id, g, GFile(Join(id), true, data));
  }

  lemma UpdateExact(drive: Drive, cache: Cache, id: VfsFileId, data: Data)
    requires Exact(drive, cache) && id in cache
    ensures var drive' := drive[cache[id] := drive[cache[id]].(data := data)];
            Exact(drive', cache) && Abstract(drive', cache) == Abstract(drive, cache)[id := data]
  {
    hide Join, Encodable;
    ExactIsOneToOne(drive, cache);
  }

  /** What a successful upsert does: the cache alone decides between update and create. */
  ghost predicate UpsertsTo(drive: Drive, cache: Cache, id: VfsFileId, data: Data, drive': Drive, cache': Cache)
    requires Sound(drive, cache)
  {
    if id in cache then cache' == cache && drive' == drive[cache[id] := drive[cache[id]].(data := data)]
    else exists g :: g !in drive && cache' == cache[id := g] && drive' == drive[g := GFile(Join(id), true, data)]
  }

  lemma UpsertExact(drive: Drive, cache: Cache, id: VfsFileId, data: Data, drive': Drive, cache': Cache)
    requires Exact(drive, cache) && Encodable(id) && UpsertsTo(drive, cache, id, data, drive', cache')
    ensures Exact(drive', cache') && Abstract(drive', cache') == Abstract(drive, cache)[id := data]
  {
    hide Join, Encodable, Sound, Complete;
    if id in cache {
      UpdateExact(drive, cache, id, data);
    } else {
      var g :| g !in drive && cache' == cache[id := g] && drive' == drive[g := GFile(Join(id), true, data)];
      CreateExact(drive, cache, id, g, data);
    }
  }

  lemma DeleteExact(drive: Drive, cache: Cache, id: VfsFileId)
    requires Exact(drive, cache) && id in cache
    ensures var drive', cache' := drive - {cache[id]}, cache - {id};
            Exact(drive', cache') && Abstract(drive', cache') == Abstract(drive, cache) - {id}
  {
    hide Join, Encodable;
    ExactIsOneToOne(drive, cache);
    var drive', cache' := drive - {cache[id]}, cache - {id};
    assert forall a :: a in cache' ==> cache'[a] == cache[a] && cache[a] != cache[id];
    forall h | h in drive' ensures exists a :: a in cache' && cache'[a] == h {
      var a :| a in cache && cache[a] == h;
      assert a != id && cache'[a] == h;
    }
  }

  /**
   * The cache survives a create exactly when the client reports what happened:
   * a create that took effect but was reported as failed leaves an uncached
   * file, and a later upsert of the same id would make a duplicate.
   */
  lemma CreateKeepsExactIff(drive: Drive, cache: Cache, id: VfsFileId, g: Gid, data: Data, effect: bool, reported: bool)
    requires Exact(drive, cache) && Encodable(id) && id !in cache && g !in drive
    ensures var drive' := if effect then drive[g := GFile(Join(id), true, data)] else drive;
            var cache' := if reported then cache[id := g] else cache;
            Exact(drive', cache') <==> (effect <==> reported)
  {
    CreateExact(drive, cache, id, g, data);
    var drive' := drive[g := GFile(Join(id), true, data)];
    assert g in drive' && forall a :: a in cache ==> cache[a] in drive;
    assert id in cache[id := g] && cache[id := g][id] == g;
  }

  /**
   * ... for the cache, which still lacks the file, sends the upsert to its
   * create branch: when that succeeds the name exists twice.
   */
  lemma RetryAfterLostCreate(drive: Drive, cache: Cache, id: VfsFileId, g: Gid, data: Data,
                             again: Data, drive': Drive, cache': Cache)
    requires Exact(drive, cache) && Encodable(id) && id !in cache && g !in drive
    ensures var lost := drive[g := GFile(Join(id), true, data)];
            && Sound(lost, cache)
            && (UpsertsTo(lost, cache, id, again, drive', cache') ==>
                  !UniqueNames(drive') && forall c: Cache :: !Exact(drive', c))
  {
    hide Encodable, Complete, Join;
    var lost := drive[g := GFile(Join(id), true, data)];
    assert Sound(lost, cache);
    if UpsertsTo(lost, cache, id, again, drive', cache') {
      assert g in drive' && drive'[g].name == Join(id);
      var h :| h !in lost && cache' == cache[id := h] && drive' == lost[h := GFile(Join(id), true, again)];
      assert drive'[h].name == Join(id) && g != h;
      forall c: Cache ensures !Exact(drive', c) {
        if Exact(drive', c) { ExactIsOneToOne(drive', c); }
      }
    }
  }

  /** Likewise for a delete. */
  lemma DeleteKeepsExactIff(drive: Drive, cache: Cache, id: VfsFileId, effect: bool, reported: bool)
    requires Exact(drive, cache) && id in cache
    ensures var drive' := if effect then drive - {cache[id]} else drive;
            var cache' := if reported then cache - {id} else cache;
            Exact(drive', cache') <==> (effect <==> reported)
  {
    ExactIsOneToOne(drive, cache);
    DeleteExact(drive, cache, id);
    var g := cache[id];
    assert g in drive && g !in drive - {g};
    assert forall a :: a in cache - {id} ==> (cache - {id})[a] != g;
  }

  // --- The Drive client --- //

  /**
   * Drive as this instance sees it: the children of each directory. Any call
   * may fail; a failed create or delete has no effect, a failed update may
   * have taken effect.
   */
  class GDriveClient {
    var dirs: map<Gid, Drive>
    /** The GVFS root directory for the network, if it was ever created. */
    var gvfsRoot: Option<Gid>
    /** How many requests have failed. */
    ghost var failures: nat

    constructor (dirs: map<Gid, Drive>, gvfsRoot: Option<Gid>)
      ensures this.dirs == dirs && this.gvfsRoot == gvfsRoot && failures == 0
    {
      this.dirs := dirs;
      this.gvfsRoot := gvfsRoot;
      failures := 0;
    }

    ghost predicate Valid()
      reads this
    {
      && (gvfsRoot.Some? ==> gvfsRoot.value in dirs)
      && (forall d :: d in dirs ==> UniqueNames(dirs[d]))
    }

    method ListDirectChildren(dir: Gid) returns (r: Option<Drive>)
      modifies this`failures
      ensures r.Some? ==> dir in dirs && r.value == dirs[dir]
      ensures failures == old(failures) + if r.Some? || dir !in dirs then 0 else 1
    {
      var ok: bool := *;
      failures := if ok || dir !in dirs then failures else failures + 1;
      r := if ok && dir in dirs then Some(dirs[dir]) else None;
    }

    /** Finds the LexeData directory and the network's root in it, creating them if absent. */
    method GetOrCreateGvfsRoot() returns (r: Option<Gid>)
      requires Valid()
      modifies this
      ensures Valid()
      ensures failures == old(failures) + if r.Some? then 0 else 1
      ensures r.Some? ==> gvfsRoot == r && r.value in dirs
      ensures old(gvfsRoot).Some? ==> gvfsRoot == old(gvfsRoot) && dirs == old(dirs)
      ensures old(gvfsRoot).None? ==>
                dirs == old(dirs) || (r.Some? && r.value !in old(dirs) && dirs == old(dirs)[r.value := map[]])
    {
      var ok: bool := *;
      failures := if ok then failures else failures + 1;
      if !ok { return None; }
      if gvfsRoot.Some? { return gvfsRoot; }
      var g := FreshGid(dirs.Keys);
      dirs := dirs[g := map[]];
      gvfsRoot := Some(g);
      r := gvfsRoot;
    }

    method DownloadBlobFile(dir: Gid, g: Gid) returns (r: Option<Data>)
      requires dir in dirs
      modifies this`failures
      ensures r.Some? ==> g in dirs[dir] && r.value == dirs[dir][g].data
      ensures failures == old(failures) + if r.Some? || g !in dirs[dir] then 0 else 1
    {
      var ok: bool := *;
      failures := if ok || g !in dirs[dir] then failures else failures + 1;
      r := if ok && g in dirs[dir] then Some(dirs[dir][g].data) else None;
    }

    method CreateBlobFile(dir: Gid, name: string, data: Data) returns (r: Option<Gid>)
      requires dir in dirs
      modifies this`dirs, this`failures
      ensures failures == old(failures) + if r.Some? then 0 else 1
      ensures r.None? ==> dirs == old(dirs)
      ensures r.Some? ==> r.value !in old(dirs[dir]) &&
                          dirs == old(dirs)[dir := old(dirs[dir])[r.value := GFile(name, true, data)]]
    {
      var ok: bool := *;
      failures := if ok then failures else failures + 1;
      if !ok { return None; }
      var g := FreshGid(dirs[dir].Keys);
      dirs := dirs[dir := dirs[dir][g := GFile(name, true, data)]];
      r := Some(g);
    }

    method UpdateBlobFile(dir: Gid, g: Gid, data: Data) returns (ok: bool)
      requires dir in dirs && g in dirs[dir]
      modifies this`dirs, this`failures
      ensures failures == old(failures) + if ok then 0 else 1
      ensures dirs == old(dirs)[dir := old(dirs[dir])[g := old(dirs[dir][g]).(data := data)]] ||
                (!ok && dirs == old(dirs))
    {
      ok := *;
      failures := if ok then failures else failures + 1;
      var effect: bool := *;
      if ok || effect { dirs := dirs[dir := dirs[dir][g := dirs[dir][g].(data := data)]]; }
    }

    method DeleteFile(dir: Gid, g: Gid) returns (ok: bool)
      requires dir in dirs
      modifies this`dirs, this`failures
      ensures failures == old(failures) + if ok then 0 else 1
      ensures dirs == if ok then old(dirs)[dir := old(dirs[dir]) - {g}] else old(dirs)
    {
      ok := *;
      failures := if ok then failures else failures + 1;
      if ok { dirs := dirs[dir := dirs[dir] - {g}]; }
    }
  }

  method FreshGid(used: set<Gid>) returns (g: Gid)
    ensures g !in used
  {
    g := "";
    ghost var seen: set<Gid> := {};
    while g in used
      invariant seen <= used && forall h :: h in seen ==> |h| < |g|
      decreases used - seen
    {
      assert g !in seen;
      seen := seen + {g};
      g := g + "x";
    }
  }

  // --- Sorted iteration over the cache --- //

  method InsertKey(keys: seq<VfsFileId>, id: VfsFileId) returns (r: seq<VfsFileId>)
    requires Sorted(keys) && id !in keys
    ensures Sorted(r) && forall x :: x in r <==> x in keys || x == id
  {
    var k := |keys|;
    while k > 0 && id.Less(keys[k - 1])
      invariant 0 <= k <= |keys|
      invariant forall j :: k <= j < |keys| ==> id.Less(keys[j])
    {
      k := k - 1;
    }
    r := keys[..k] + [id] + keys[k..];
    InsertKeyAt(keys, id, k);
  }

  lemma InsertKeyAt(keys: seq<VfsFileId>, id: VfsFileId, k: nat)
    requires Sorted(keys) && id !in keys && k <= |keys|
    requires k == 0 || !id.Less(keys[k - 1])
    requires forall j :: k <= j < |keys| ==> id.Less(keys[j])
    ensures var r := keys[..k] + [id] + keys[k..];
            Sorted(r) && forall x :: x in r <==> x in keys || x == id
  {
    hide VfsFileId.Less;
    forall i | 0 <= i < k ensures keys[i].Less(id) {
      IdTotal(id, keys[k - 1]);
      if i < k - 1 { IdTransitive(keys[i], keys[k - 1], id); }
    }
    assert keys == keys[..k] + keys[k..];
  }

  /** `cache.range(lower..)`: the keys at or above the bound, ascending. */
  method RangeFrom(cache: Cache, lower: VfsFileId) returns (keys: seq<VfsFileId>)
    ensures Sorted(keys)
    ensures forall id :: id in keys <==> id in cache && !id.Less(lower)
  {
    hide VfsFileId.Less;
    keys := [];
    var rest := cache.Keys;
    while rest != {}
      invariant rest <= cache.Keys && Sorted(keys)
      invariant forall id :: id in keys <==> id in cache.Keys - rest && !id.Less(lower)
      decreases rest
    {
      var id :| id in rest;
      if !id.Less(lower) {
        keys := InsertKey(keys, id);
      }
      rest := rest - {id};
    }
  }

  /** The ids of one directory in the cache, ascending. */
  ghost predicate ListsDirectory(ids: seq<VfsFileId>, cache: Cache, dirname: string) {
    Sorted(ids) && forall id :: id in ids <==> id in cache && id.dirname == dirname
  }

  /** The scan of `get_directory`: from the lower bound until the first other dirname. */
  method ScanDirectory(cache: Cache, dirname: string) returns (ids: seq<VfsFileId>)
    ensures ListsDirectory(ids, cache, dirname)
  {
    hide VfsFileId.Less;
    var keys := RangeFrom(cache, LowerBound(dirname));
    var i := 0;
    while i < |keys| && keys[i].dirname == dirname
      invariant 0 <= i <= |keys|
      invariant forall j :: 0 <= j < i ==> keys[j].dirname == dirname
    {
      i := i + 1;
    }
    ids := keys[..i];
    ScanComplete(keys, cache, dirname, i);
  }

  lemma ScanComplete(keys: seq<VfsFileId>, cache: Cache, dirname: string, i: nat)
    requires Sorted(keys) && i <= |keys|
    requires forall id :: id in keys <==> id in cache && !id.Less(LowerBound(dirname))
    requires forall j :: 0 <= j < i ==> keys[j].dirname == dirname
    requires i < |keys| ==> keys[i].dirname != dirname
    ensures ListsDirectory(keys[..i], cache, dirname)
  {
    hide VfsFileId.Less;
    forall id ensures id in keys[..i] <==> id in cache && id.dirname == dirname {
      if id in keys[..i] {
        var j :| 0 <= j < i && keys[j] == id;
        assert keys[j] in keys;
      }
      if id in cache && id.dirname == dirname {
        InDirAboveBound(id);
        var j :| 0 <= j < |keys| && keys[j] == id;
        if j >= i {
          assert keys[i] in keys;
          ScanStops(keys, dirname, i, j);
        }
        assert keys[..i][j] == id;
      }
    }
  }

  lemma SameDirLess(a: VfsFileId, b: VfsFileId)
    requires a.dirname == b.dirname && a.Less(b)
    ensures Strings.Less(a.filename, b.filename)
  {
    Strings.Irreflexive(a.dirname);
  }

  // --- Building the cache --- //

  datatype GvfsRoot = GvfsRoot(network: string, gid: Gid)

  datatype InitError = NetworkMismatch | RootSearchFailed | ListFailed | WrongMimeType | InvalidName

  predicate Listable(f: GFile) { f.binary && Validate(f.name).Ok? }

  /** The cache built from a listing, one file at a time in any order. */
  method BuildCache(files: Drive) returns (r: Result<Cache, InitError>)
    requires UniqueNames(files)
    ensures r.Ok? <==> forall g :: g in files ==> Listable(files[g])
    ensures r.Ok? ==> Exact(files, r.value)
    ensures r == Err(WrongMimeType) <==> exists g :: g in files && !files[g].binary
    ensures r.Err? ==> r.error.WrongMimeType? || r.error.InvalidName?
  {
    hide Validate, Decode, Join, Encodable;
    if g :| g in files && !files[g].binary {
      return Err(WrongMimeType);
    }
    var cache: Cache := map[];
    var rest := files.Keys;
    while rest != {}
      invariant rest <= files.Keys && Sound(files, cache)
      invariant forall g :: g in files.Keys - rest ==> Listable(files[g]) && CachedAs(cache, g)
      invariant forall id :: id in cache ==> cache[id] !in rest
      decreases rest
    {
      var g :| g in rest;
      assert g in files;
      var decoded := Decode(files[g].name);
      DecodesAs(files[g].name);
      if decoded.Err? {
        return Err(InvalidName);
      }
      forall h | h in files.Keys - (rest - {g}) ensures CachedAs(cache[decoded.value := g], h) {
        CachedGrows(files, cache, decoded.value, g, h);
      }
      cache := cache[decoded.value := g];
      rest := rest - {g};
    }
    assert forall g :: g in files ==> CachedAs(cache, g);
    r := Ok(cache);
  }

  ghost predicate CachedAs(cache: Cache, g: Gid) { exists id :: id in cache && cache[id] == g }

  lemma DecodesAs(name: string)
    ensures Decode(name).Ok? <==> Validate(name).Ok?
    ensures Decode(name).Ok? ==> Encodable(Decode(name).value) && name == Join(Decode(name).value)
  {
    EncodeDecode(name);
    if Decode(name).Ok? { EncodeIff(Decode(name).value); }
  }

  /** Adding the entry of a new file overwrites nothing, since names are unique. */
  lemma CachedGrows(files: Drive, cache: Cache, id: VfsFileId, g: Gid, h: Gid)
    requires UniqueNames(files) && Sound(files, cache) && g in files && files[g].name == Join(id)
    requires forall a :: a in cache ==> cache[a] != g
    requires CachedAs(cache, h) || h == g
    ensures CachedAs(cache[id := g], h)
  {
    hide Join;
    if h == g {
      assert cache[id := g][id] == g;
    } else {
      var a :| a in cache && cache[a] == h;
      assert files[cache[a]].name == Join(a) && files[cache[a]].name != files[g].name;
      assert cache[id := g][a] == h;
    }
  }

  // --- The VFS --- //

  datatype VfsError = Duplicate | NotFound | BadName(error: NameError) | RootListing | RequestFailed

  class Vfs {
    const client: GDriveClient
    const root: Gid
    var cache: Cache

    ghost predicate Valid()
      reads this, client`dirs
    {
      root in client.dirs && Exact(client.dirs[root], cache)
    }

    /** The cache may lack files, but what it has is right. */
    ghost predicate Works()
      reads this, client`dirs
    {
      root in client.dirs && Sound(client.dirs[root], cache)
    }

    /** What the VFS holds. */
    ghost function Contents(): View
      requires Valid()
      reads this, client`dirs
    {
      Abstract(client.dirs[root], cache)
    }

    constructor (client: GDriveClient, root: Gid, cache: Cache)
      requires root in client.dirs && Exact(client.dirs[root], cache)
      ensures Valid() && this.client == client && this.root == root && this.cache == cache
    {
      this.client := client;
      this.root := root;
      this.cache := cache;
    }

    method FileExists(id: VfsFileId) returns (b: bool)
      requires Valid()
      ensures b <==> id in Contents()
    {
      b := id in cache;
    }

    method GetFile(id: VfsFileId) returns (r: Result<Option<Data>, VfsError>)
      requires Valid()
      modifies client`failures
      ensures client.failures == old(client.failures) + if r == Err(RequestFailed) then 1 else 0
      ensures r.Ok? ==> r.value == if id in Contents() then Some(Contents()[id]) else None
      ensures r.Err? ==> id in Contents() && r.error.RequestFailed?
    {
      if id !in cache { return Ok(None); }
      var data := client.DownloadBlobFile(root, cache[id]);
      if data.None? { return Err(RequestFailed); }
      r := Ok(Some(data.value));
    }

    method CreateFile(id: VfsFileId, data: Data) returns (r: Result<(), VfsError>)
      requires Valid()
      modifies this, client`dirs, client`failures
      ensures client.failures == old(client.failures) + if r == Err(RequestFailed) then 1 else 0
      ensures Valid() && client.dirs - {root} == old(client.dirs) - {root}
      ensures r.Ok? ==> id !in old(Contents()) && Encodable(id) && Contents() == old(Contents())[id := data]
      ensures r.Err? ==> Contents() == old(Contents())
      ensures r == Err(Duplicate) <==> id in old(Contents())
      ensures id !in old(Contents()) && !Encodable(id) ==> Encode(id).Err? && r == Err(BadName(Encode(id).error))
    {
      hide Join, Encodable, Sound, Complete;
      ghost var drive := client.dirs[root];
      if id in cache { return Err(Duplicate); }
      r := Upload(id, data);
      if r.Ok? { UpsertExact(drive, old(cache), id, data, client.dirs[root], cache); }
    }

    /** Needs no complete cache to run, only to be right. */
    method UpsertFile(id: VfsFileId, data: Data) returns (r: Result<(), VfsError>)
      requires Works()
      modifies this, client`dirs, client`failures
      ensures client.failures == old(client.failures) + if r == Err(RequestFailed) then 1 else 0
      ensures Works() && client.dirs - {root} == old(client.dirs) - {root}
      ensures r.Ok? ==>
                Encodable(id) && UpsertsTo(old(client.dirs[root]), old(cache), id, data, client.dirs[root], cache)
      ensures r.Err? ==>
                || (client.dirs == old(client.dirs) && cache == old(cache))
                || (id in old(cache)
                    && UpsertsTo(old(client.dirs[root]), old(cache), id, data, client.dirs[root], cache))
      ensures !Encodable(id) ==>
                && Encode(id).Err? && r == Err(BadName(Encode(id).error))
                && client.dirs == old(client.dirs) && cache == old(cache)
      ensures old(Valid()) ==>
                && Valid()
                && (r.Ok? ==> Contents() == old(Contents())[id := data])
                && (r.Err? ==> Contents() == old(Contents()) ||
                               (id in old(Contents()) && Contents() == old(Contents())[id := data]))
    {
      hide Join, Encodable;
      ghost var drive := client.dirs[root];
      if id in cache {
        var ok := client.UpdateBlobFile(root, cache[id], data);
        if Exact(drive, cache) { UpdateExact(drive, cache, id, data); }
        return if ok then Ok(()) else Err(RequestFailed);
      }
      r := Upload(id, data);
      if r.Ok? && Exact(drive, old(cache)) { UpsertExact(drive, old(cache), id, data, client.dirs[root], cache); }
    }

    /** The shared tail of create and upsert: encode the name, upload, cache the new id. */
    method Upload(id: VfsFileId, data: Data) returns (r: Result<(), VfsError>)
      requires Works() && id !in cache
      modifies this, client`dirs, client`failures
      ensures client.failures == old(client.failures) + if r == Err(RequestFailed) then 1 else 0
      ensures Works() && client.dirs - {root} == old(client.dirs) - {root}
      ensures r.Ok? ==>
                Encodable(id) && UpsertsTo(old(client.dirs[root]), old(cache), id, data, client.dirs[root], cache)
      ensures r.Err? ==>
                && client.dirs == old(client.dirs) && cache == old(cache)
                && (r.error.BadName? || r.error.RequestFailed?)
      ensures !Encodable(id) ==> Encode(id).Err? && r == Err(BadName(Encode(id).error))
    {
      hide Join, Encodable, Sound;
      var name := Encode(id);
      EncodeIff(id);
      if name.Err? { return Err(BadName(name.error)); }
      ghost var drive := client.dirs[root];
      var g := client.CreateBlobFile(root, name.value, data);
      if g.None? { return Err(RequestFailed); }
      CreateSound(drive, cache, id, g.value, GFile(Join(id), true, data));
      cache := cache[id := g.value];
      r := Ok(());
    }

    method DeleteFile(id: VfsFileId) returns (r: Result<(), VfsError>)
      requires Valid()
      modifies this, client`dirs, client`failures
      ensures client.failures == old(client.failures) + if r == Err(RequestFailed) then 1 else 0
      ensures Valid() && client.dirs - {root} == old(client.dirs) - {root}
      ensures r.Ok? ==> id in old(Contents()) && Contents() == old(Contents()) - {id}
      ensures r.Err? ==> Contents() == old(Contents())
      ensures r == Err(NotFound) <==> id !in old(Contents())
    {
      hide Join, Encodable;
      if id !in cache { return Err(NotFound); }
      DeleteExact(client.dirs[root], cache, id);
      var ok := client.DeleteFile(root, cache[id]);
      if !ok { return Err(RequestFailed); }
      cache := cache - {id};
      r := Ok(());
    }

    /** All and only the files of the directory, in filename order, with their data. */
    method GetDirectory(dirname: string) returns (r: Result<seq<(VfsFileId, Data)>, VfsError>)
      requires Valid()
      modifies client`failures
      ensures client.failures == old(client.failures) + if r == Err(RequestFailed) then 1 else 0
      ensures r.Err? ==> r.error.RootListing? || r.error.RequestFailed?
      ensures dirname == SINGLETON_DIRECTORY <==> r == Err(RootListing)
      ensures r.Ok? ==>
                && (forall i, j :: 0 <= i < j < |r.value| ==>
                      Strings.Less(r.value[i].0.filename, r.value[j].0.filename))
                && (forall i :: 0 <= i < |r.value| ==>
                      && r.value[i].0.dirname == dirname && r.value[i].0 in Contents()
                      && r.value[i].1 == Contents()[r.value[i].0])
                && (forall id :: id in Contents() && id.dirname == dirname ==>
                      exists i :: 0 <= i < |r.value| && r.value[i].0 == id)
    {
      hide VfsFileId.Less, Join, Encodable;
      if dirname == SINGLETON_DIRECTORY { return Err(RootListing); }
      var ids := ScanDirectory(cache, dirname);
      assert forall i :: 0 <= i < |ids| ==> ids[i] in ids;
      var files: seq<(VfsFileId, Data)> := [];
      for k := 0 to |ids|
        invariant |files| == k && client.failures == old(client.failures)
        invariant forall i :: 0 <= i < k ==> files[i].0 == ids[i] && files[i].1 == Contents()[ids[i]]
      {
        var data := client.DownloadBlobFile(root, cache[ids[k]]);
        if data.None? { return Err(RequestFailed); }
        files := files + [(ids[k], data.value)];
      }
      forall i, j | 0 <= i < j < |files| ensures Strings.Less(files[i].0.filename, files[j].0.filename) {
        SameDirLess(ids[i], ids[j]);
      }
      forall id | id in Contents() && id.dirname == dirname ensures exists i :: 0 <= i < |files| && files[i].0 == id {
        var i :| 0 <= i < |ids| && ids[i] == id;
        assert files[i].0 == id;
      }
      r := Ok(files);
    }
  }

  /**
   * Initialization: use the given root if it lists some files, otherwise look
   * the root up, and build the cache from a listing of the root finally used.
   */
  method InitFromClient(client: GDriveClient, network: string, given: Option<GvfsRoot>)
    returns (r: Result<Vfs, InitError>, toPersist: Option<GvfsRoot>)
    requires client.Valid()
    modifies client
    ensures client.Valid()
    ensures given.Some? && given.value.network != network ==>
              r == Err(NetworkMismatch) && client.dirs == old(client.dirs)
    ensures r.Ok? ==>
              && r.value.client == client && r.value.Valid()
              && toPersist == if given.Some? && given.value.gid == r.value.root then None
                              else Some(GvfsRoot(network, r.value.root))
    ensures r.Ok? ==>
              && r.value.root in client.dirs
              && forall g :: g in client.dirs[r.value.root] ==> Listable(client.dirs[r.value.root][g])
    ensures r.Ok? &&
              (given.None? || given.value.gid !in old(client.dirs) || old(client.dirs[given.value.gid]) == map[]) ==>
              client.gvfsRoot == Some(r.value.root)
    ensures r.Ok? && given.Some? && given.value.gid != r.value.root ==> client.gvfsRoot == Some(r.value.root)
    ensures r == Err(RootSearchFailed) ==> client.failures > old(client.failures)
    ensures r == Err(ListFailed) && (given.Some? ==> given.value.gid in old(client.dirs)) ==>
              client.failures > old(client.failures)
    ensures r == Err(NetworkMismatch) ==> given.Some? && given.value.network != network
  {
    toPersist := None;
    var root: Gid;
    if given.Some? {
      if given.value.network != network { return Err(NetworkMismatch), None; }
      root := given.value.gid;
    } else {
      var found := client.GetOrCreateGvfsRoot();
      if found.None? { return Err(RootSearchFailed), None; }
      root := found.value;
      toPersist := Some(GvfsRoot(network, root));
    }
    var files := client.ListDirectChildren(root);
    if given.Some? && (files.None? || files.value == map[]) {
      var found := client.GetOrCreateGvfsRoot();
      if found.None? { return Err(RootSearchFailed), None; }
      if root != found.value {
        root := found.value;
        toPersist := Some(GvfsRoot(network, root));
        files := client.ListDirectChildren(root);
      }
    }
    if files.None? { return Err(ListFailed), None; }
    var cache := BuildCache(files.value);
    if cache.Err? { return Err(cache.error), None; }
    var vfs := new Vfs(client, root, cache.value);
    r := Ok(vfs);
  }
}
