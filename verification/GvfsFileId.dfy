/**
 * The flattened name under which a VFS file is kept in Google Drive
 * (gdrive/src/gvfs_file_id.rs) and the order of VFS file ids
 * (common/src/api/vfs.rs).
 */
module GvfsFileId {
  import opened Wrappers
  import Strings

  datatype VfsFileId = VfsFileId(dirname: string, filename: string) {
    /** Derived order: dirname first, then filename. */
    predicate Less(other: VfsFileId) {
      Strings.Less(dirname, other.dirname) || (dirname == other.dirname && Strings.Less(filename, other.filename))
    }
  }

  datatype NameError = NoSlash | ManySlashes | EmptyDirname | EmptyFilename

  predicate PlainPart(part: string) { part != "" && '/' !in part }

  predicate Encodable(id: VfsFileId) { PlainPart(id.dirname) && PlainPart(id.filename) }

  function Validate(s: string): (r: Result<(), NameError>) {
    var parts := Strings.Split(s, '/');
    if |parts| < 2 then Err(NoSlash)
    else if |parts| > 2 then Err(ManySlashes)
    else if parts[0] == "" then Err(EmptyDirname)
    else if parts[1] == "" then Err(EmptyFilename)
    else Ok(())
  }

  function Join(id: VfsFileId): string { id.dirname + ['/'] + id.filename }

  /** `TryFrom<&VfsFileId>`. */
  function Encode(id: VfsFileId): (r: Result<string, NameError>) {
    match Validate(Join(id))
    case Ok(_) => Ok(Join(id))
    case Err(e) => Err(e)
  }

  /** `split_once('/')`. */
  function SplitOnce(s: string): (r: Option<(string, string)>) {
    if s == "" then None
    else if s[0] == '/' then Some(("", s[1..]))
    else
      match SplitOnce(s[1..])
      case None => None
      case Some(parts) => Some(([s[0]] + parts.0, parts.1))
  }

  /** `from_str` followed by `to_vfile_id`, whose `expect` needs a validated name. */
  function Decode(s: string): (r: Result<VfsFileId, NameError>) {
    match Validate(s)
    case Err(e) => Err(e)
    case Ok(_) =>
      match SplitOnce(s)
      case Some(parts) => Ok(VfsFileId(parts.0, parts.1))
      case None => Err(NoSlash)
  }

  lemma {:induction false} SplitOnceFirst(a: string, b: string)
    requires '/' !in a
    ensures SplitOnce(a + ['/'] + b) == Some((a, b))
  {
    var s := a + ['/'] + b;
    if a == "" {
      assert s[1..] == b;
    } else {
      SplitOnceFirst(a[1..], b);
      assert s[1..] == a[1..] + ['/'] + b;
      assert s[0] == a[0] && a == [a[0]] + a[1..];
    }
  }

  /** More slashes, more parts: a joined pair has exactly two parts only if neither part has a slash. */
  lemma {:induction false} SplitCount(a: string, b: string)
    ensures |Strings.Split(a + ['/'] + b, '/')| == |Strings.Split(a, '/')| + |Strings.Split(b, '/')|
  {
    var s := a + ['/'] + b;
    if a == "" {
      assert s[1..] == b;
    } else {
      SplitCount(a[1..], b);
      assert s[1..] == a[1..] + ['/'] + b;
      assert s[0] == a[0];
    }
  }

  lemma {:induction false} SplitSingle(s: string)
    ensures |Strings.Split(s, '/')| == 1 <==> '/' !in s
  {
    if s != "" {
      SplitSingle(s[1..]);
      assert s == [s[0]] + s[1..];
    }
  }

  /** An id encodes exactly when both its parts are nonempty and free of slashes. */
  lemma EncodeIff(id: VfsFileId)
    ensures Encode(id).Ok? <==> Encodable(id)
    ensures Encode(id).Ok? ==> Encode(id).value == Join(id)
  {
    SplitCount(id.dirname, id.filename);
    SplitSingle(id.dirname);
    SplitSingle(id.filename);
    if '/' !in id.dirname && '/' !in id.filename {
      Strings.SplitFirst(id.dirname, '/', id.filename);
      Strings.SplitNone(id.filename, '/');
    }
  }

  /** What encodes decodes to itself. */
  lemma DecodeEncode(id: VfsFileId)
    requires Encodable(id)
    ensures Encode(id) == Ok(Join(id)) && Decode(Join(id)) == Ok(id)
  {
    EncodeIff(id);
    SplitOnceFirst(id.dirname, id.filename);
  }

  /** A name is valid exactly when it is the encoding of an id, and then decoding and encoding give it back. */
  lemma EncodeDecode(s: string)
    ensures Decode(s).Ok? <==> Validate(s).Ok?
    ensures Validate(s).Ok? ==> Encodable(Decode(s).value) && Encode(Decode(s).value) == Ok(s)
    ensures Validate(s).Ok? <==> exists id :: Encodable(id) && s == Join(id)
  {
    if Validate(s).Ok? {
      var parts := Strings.Split(s, '/');
      Strings.SplitTwoJoins(s, '/');
      var id := VfsFileId(parts[0], parts[1]);
      assert s == Join(id) && Encodable(id);
      DecodeEncode(id);
    }
    if id :| Encodable(id) && s == Join(id) {
      DecodeEncode(id);
    }
  }

  /** The dirname comes first, and each kind of malformed name has its own error. */
  lemma KnownNames()
    ensures Join(VfsFileId("d", "f")) == "d/f"
    ensures Validate("d").error == NoSlash && Validate("d/e/f").error == ManySlashes
    ensures Validate("/f").error == EmptyDirname && Validate("d/").error == EmptyFilename
  {
    SplitsAs("d", "");
    SplitsAs("", "f");
    SplitsAs("d", "e");
    Strings.SplitNone("d", '/');
    Strings.SplitNone("f", '/');
    Strings.SplitFirst("d", '/', "e/f");
    Strings.SplitFirst("e", '/', "f");
    assert "d" + ['/'] + "e/f" == "d/e/f" && "e" + ['/'] + "f" == "e/f";
  }

  lemma SplitsAs(a: string, b: string)
    requires '/' !in a && '/' !in b
    ensures Strings.Split(a + ['/'] + b, '/') == [a, b]
  {
    Strings.SplitFirst(a, '/', b);
    Strings.SplitNone(b, '/');
  }

  lemma JoinInjective(a: VfsFileId, b: VfsFileId)
    requires Encodable(a) && Encodable(b) && Join(a) == Join(b)
    ensures a == b
  {
    DecodeEncode(a);
    DecodeEncode(b);
  }

  // --- The order of ids --- //

  lemma IdTransitive(a: VfsFileId, b: VfsFileId, c: VfsFileId)
    requires a.Less(b) && b.Less(c)
    ensures a.Less(c)
  {
    if Strings.Less(a.dirname, b.dirname) && Strings.Less(b.dirname, c.dirname) {
      Strings.Transitive(a.dirname, b.dirname, c.dirname);
    }
    if Strings.Less(a.filename, b.filename) && Strings.Less(b.filename, c.filename) {
      Strings.Transitive(a.filename, b.filename, c.filename);
    }
  }

  lemma IdTotal(a: VfsFileId, b: VfsFileId)
    ensures a.Less(b) || a == b || b.Less(a)
    ensures !a.Less(a)
  {
    Strings.Total(a.dirname, b.dirname);
    Strings.Total(a.filename, b.filename);
    Strings.Irreflexive(a.dirname);
    Strings.Irreflexive(a.filename);
  }

  ghost predicate Sorted(keys: seq<VfsFileId>) {
    forall i, j :: 0 <= i < j < |keys| ==> keys[i].Less(keys[j])
  }

  /** The least id that a directory could hold. */
  function LowerBound(dirname: string): VfsFileId { VfsFileId(dirname, "") }

  /** Everything in a directory lies at or above its lower bound. */
  lemma InDirAboveBound(id: VfsFileId)
    ensures !id.Less(LowerBound(id.dirname))
  {
    Strings.Irreflexive(id.dirname);
  }

  /** Past the first other directory no file of this one follows. */
  lemma ScanStops(keys: seq<VfsFileId>, dirname: string, i: nat, j: nat)
    requires Sorted(keys) && i <= j < |keys|
    requires !keys[i].Less(LowerBound(dirname)) && keys[i].dirname != dirname
    ensures keys[j].dirname != dirname
  {}
}
