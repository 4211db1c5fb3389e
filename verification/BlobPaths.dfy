/** Where the registry keeps its files, and why no two of them are the same file. */
module BlobPaths {
  import opened Basics
  import opened Repositories
  import Digests
  import Names
  import Texts

  datatype Kind = Blob | Manifest

  /** One stored resource: the repository, local or cached, the kind and the digest. */
  datatype BlobKey = BlobKey(repository: Repository, kind: Kind, digest: Digests.Digest)

  /** One upload's temporary file: the local repository and the file name, an upload's UUID text. */
  datatype UploadKey = UploadKey(repository: Names.Name, uuid: string)

  /** Every file the registry's blob code touches. */
  datatype Loc =
    | Content(blob: BlobKey)
    | MediaType(blob: BlobKey)
    | SaveTemp(blob: BlobKey)
    | UploadTemp(upload: UploadKey)

  function BlobRoot(repository: Repository, kind: Kind): Path
  {
    StoragePath(repository) + (if kind == Manifest then ["_manifests", "revisions"] else [])
  }

  function ShardedBlobRoot(root: Path, digest: Digests.Digest): Path
    requires Digests.Valid(digest)
  {
    var hex := Digests.Hex(digest);
    root + ["blobs", "sha256", hex[..2], hex]
  }

  function FinalRoot(blob: BlobKey): Path
    requires Digests.Valid(blob.digest)
  {
    ShardedBlobRoot(BlobRoot(blob.repository, blob.kind), blob.digest)
  }

  ghost predicate Valid(l: Loc)
  {
    match l
    case UploadTemp(k) => Names.Valid(k.repository)
    case Content(b) => Repositories.Valid(b.repository) && Digests.Valid(b.digest)
    case MediaType(b) => Repositories.Valid(b.repository) && Digests.Valid(b.digest)
    case SaveTemp(b) => Repositories.Valid(b.repository) && Digests.Valid(b.digest)
  }

  function PathOf(l: Loc): Path
    requires Valid(l)
  {
    match l
    case Content(b) => FinalRoot(b) + [Digests.Hex(b.digest)]
    case MediaType(b) => FinalRoot(b) + [Digests.Hex(b.digest) + ".mediatype"]
    case SaveTemp(b) => FinalRoot(b) + [Digests.Hex(b.digest) + ".tmp"]
    case UploadTemp(k) => StoragePath(Local(k.repository)) + ["tmp", k.uuid]
  }

  /** The file name tells which of the three files of a blob it is. */
  lemma SuffixesDiffer(hex: string)
    ensures hex != hex + ".mediatype" && hex != hex + ".tmp" && hex + ".mediatype" != hex + ".tmp"
  {
    assert |hex + ".mediatype"| == |hex| + 10 && |hex + ".tmp"| == |hex| + 4;
  }

  /** The number of components tells uploads, blobs and manifests apart, and local from cached. */
  function Depth(l: Loc): nat
  {
    if l.UploadTemp? then 4
    else (if l.blob.repository.Local? then 7 else 8) + (if l.blob.kind == Blob then 0 else 2)
  }

  lemma PathParts(l: Loc)
    requires Valid(l) && !l.UploadTemp?
    ensures var p := PathOf(l);
            var root := StoragePath(l.blob.repository);
            && |p| == Depth(l) && p[..|root|] == root
            && p[|p| - 2] == Digests.Hex(l.blob.digest)
            && p[|p| - 1] == Digests.Hex(l.blob.digest) + match l
                                                          case MediaType(_) => ".mediatype"
                                                          case SaveTemp(_) => ".tmp"
                                                          case _ => ""
  {
    assert Digests.Hex(l.blob.digest) + "" == Digests.Hex(l.blob.digest);
  }

  lemma SameDigest(d: Digests.Digest, e: Digests.Digest)
    requires Digests.Valid(d) && Digests.Valid(e) && Digests.Hex(d) == Digests.Hex(e)
    ensures d == e
  {
    assert d.text == Digests.PREFIX + Digests.Hex(d) && e.text == Digests.PREFIX + Digests.Hex(e);
  }

  lemma BlobLocInjective(l: Loc, m: Loc)
    requires Valid(l) && Valid(m) && !l.UploadTemp? && !m.UploadTemp? && PathOf(l) == PathOf(m)
    ensures l == m
  {
    hide PathOf, StoragePath;
    PathParts(l);
    PathParts(m);
    assert |StoragePath(l.blob.repository)| == |StoragePath(m.blob.repository)| by {
      RootLength(l.blob.repository);
      RootLength(m.blob.repository);
    }
    StoragePathInjective(l.blob.repository, m.blob.repository);
    SameDigest(l.blob.digest, m.blob.digest);
    SuffixesDiffer(Digests.Hex(l.blob.digest));
  }

  lemma RootLength(r: Repository)
    ensures |StoragePath(r)| == if r.Local? then 2 else 3
    ensures StoragePath(r)[0] == if r.Local? then LOCAL else UPSTREAM
  {}

  /** Different locations are different files, so reasoning about locations is reasoning about paths. */
  lemma PathOfInjective(l: Loc, m: Loc)
    requires Valid(l) && Valid(m) && PathOf(l) == PathOf(m)
    ensures l == m
  {
    if !l.UploadTemp? && !m.UploadTemp? {
      BlobLocInjective(l, m);
    } else {
      if !l.UploadTemp? { PathParts(l); }
      if !m.UploadTemp? { PathParts(m); }
      var p, q := PathOf(l), PathOf(m);
      assert |p| == Depth(l) && |q| == Depth(m);
      assert Names.FsSafe(l.upload.repository) == p[1] == q[1] == Names.FsSafe(m.upload.repository);
      Names.FsSafeInjective(l.upload.repository, m.upload.repository);
      assert l.upload.uuid == p[3] == q[3] == m.upload.uuid;
    }
  }

  lemma FolderLayout(r: Repository, d: Digests.Digest)
    requires Digests.Valid(d)
    ensures var hex := d.text[7..];
            && FinalRoot(BlobKey(r, Blob, d)) == StoragePath(r) + ["blobs", "sha256", hex[..2], hex]
            && FinalRoot(BlobKey(r, Manifest, d))
               == StoragePath(r) + ["_manifests", "revisions", "blobs", "sha256", hex[..2], hex]
  {
    hide StoragePath;
  }

  /** The layout of a repository's folder. */
  lemma FileLayout(r: Repository, d: Digests.Digest)
    requires Digests.Valid(d) && Repositories.Valid(r)
    ensures var hex := d.text[7..];
            var folder := StoragePath(r) + ["blobs", "sha256", hex[..2], hex];
            && PathOf(Content(BlobKey(r, Blob, d))) == folder + [hex]
            && PathOf(MediaType(BlobKey(r, Blob, d))) == folder + [hex + ".mediatype"]
            && PathOf(SaveTemp(BlobKey(r, Blob, d))) == folder + [hex + ".tmp"]
            && PathOf(Content(BlobKey(r, Manifest, d)))
               == StoragePath(r) + ["_manifests", "revisions", "blobs", "sha256", hex[..2], hex] + [hex]
  {
    hide StoragePath, FinalRoot;
    FolderLayout(r, d);
  }

  /** The layout of the storage root. */
  lemma RootLayout(name: Names.Name, uuid: string, host: string)
    requires Names.Valid(name)
    ensures var folder := if name.namespace.Some? then name.namespace.value + "%2F" + name.name else name.name;
            && StoragePath(Local(name)) == ["local", folder]
            && PathOf(UploadTemp(UploadKey(name, uuid))) == ["local", folder, "tmp", uuid]
            && StoragePath(Upstream(DockerHub, ["library", name.name]))
               == ["upstream", "docker.io", "library%2F" + name.name]
            && StoragePath(Upstream(Other(host), [name.name])) == ["upstream", host, name.name]
  {
    var path := ["library", name.name];
    assert path[1..] == [name.name];
    assert Texts.Join(path[1..], Names.ESCAPED_SEPARATOR) == name.name;
    assert "library%2F" == "library" + "%2F";
  }

  /** What a blob's folder lists are exactly its own three files. */
  lemma FilesOfFinalRoot(b: BlobKey, l: Loc)
    requires Repositories.Valid(b.repository) && Digests.Valid(b.digest) && Valid(l)
    ensures PathOf(l)[..|PathOf(l)| - 1] == FinalRoot(b) <==> l in {Content(b), MediaType(b), SaveTemp(b)}
  {
    var p := PathOf(l);
    var parent := p[..|p| - 1];
    if parent == FinalRoot(b) {
      PathParts(Content(b));
      assert PathOf(Content(b))[..|p| - 1] == FinalRoot(b);
      if l.UploadTemp? {
        assert false;
      } else {
        PathParts(l);
        var other := match l case Content(_) => Content(b) case MediaType(_) => MediaType(b) case _ => SaveTemp(b);
        assert Digests.Hex(l.blob.digest) == parent[|parent| - 1] == Digests.Hex(b.digest);
        assert PathOf(other) == p;
        PathOfInjective(l, other);
      }
    }
  }

  /** Everything the registry stores is below one of two folders. */
  lemma TopFolder(l: Loc)
    requires Valid(l)
    ensures PathOf(l)[0] == if l.UploadTemp? || l.blob.repository.Local? then LOCAL else UPSTREAM
  {}

  /** The repositories purge visits, given the folders directly below the storage root. */
  function Visited(folders: seq<string>): (names: seq<Names.Name>)
  {
    if folders == [] then []
    else
      var rest := Visited(folders[..|folders| - 1]);
      match Names.FromText(folders[|folders| - 1])
      case Ok(name) => rest + [name]
      case Err(_) => rest
  }

  lemma {:induction false} VisitedSnoc(folders: seq<string>, i: nat)
    requires i < |folders|
    ensures Visited(folders[..i + 1])
         == Visited(folders[..i]) + match Names.FromText(folders[i]) case Ok(name) => [name] case Err(_) => []
    ensures Visited(folders[..i + 1]) <= Visited(folders)
    decreases |folders| - i
  {
    hide Names.FromText;
    assert folders[..i + 1][..i] == folders[..i];
    if i + 1 < |folders| {
      VisitedSnoc(folders, i + 1);
    } else {
      assert folders[..i + 1] == folders;
    }
  }

  /** The names purge finds are exactly those that some folder's name reads as. */
  lemma {:induction false} VisitedExactly(folders: seq<string>, name: Names.Name)
    ensures name in Visited(folders) <==> exists folder :: folder in folders && Names.FromText(folder) == Ok(name)
  {
    hide Names.FromText;
    if folders != [] {
      var n := |folders| - 1;
      VisitedExactly(folders[..n], name);
      assert folders == folders[..n] + [folders[n]];
    }
  }

  lemma OneComponent(text: string)
    requires |text| <= Names.MAX_LENGTH && Names.MatchesComponent(text)
    ensures Names.FromText(text) == Ok(Names.Name(text, None))
  {
    var name := Names.Name(text, None);
    assert Names.FsSafe(name) == text;
    Names.FsSafeRoundTrip(name);
  }

  lemma RegistryFolderIsAName(folder: string)
    requires folder in {LOCAL, UPSTREAM}
    ensures Names.FromText(folder) == Ok(Names.Name(folder, None))
  {
    OneComponent(folder);
  }

  /**
   Purge takes repository names from the folders directly below the storage root. The registry's own are
   "local" and "upstream", which read as local repositories of those names: it reaches these and no other.
   */
  lemma {:induction false} PurgeReachesExactly(folders: seq<string>, name: Names.Name)
    requires forall i :: 0 <= i < |folders| ==> folders[i] in {LOCAL, UPSTREAM}
    ensures name in Visited(folders) <==> name.namespace.None? && name.name in folders
  {
    hide Names.FromText;
    if folders != [] {
      var n := |folders| - 1;
      PurgeReachesExactly(folders[..n], name);
      RegistryFolderIsAName(folders[n]);
      assert folders == folders[..n] + [folders[n]];
    }
  }
}
