/** Mounting a blob from another repository: find a holder, hard-link content and media type, undo on failure. */
module BlobMounter {
  import opened Basics
  import opened BlobPaths
  import opened BlobRuns
  import opened Disks
  import opened Files
  import opened Repositories
  import opened UploadProtocol
  import Digests
  import Names

  datatype MountError = FileSystemError

  function KeyIn(name: Names.Name, digest: Digests.Digest): BlobKey
  {
    BlobKey(Local(name), Blob, digest)
  }

  /** A repository that can be mounted from. */
  predicate Holds(d: Disk, name: Names.Name, digest: Digests.Digest)
  {
    Content(KeyIn(name, digest)) in d.names && MediaType(KeyIn(name, digest)) in d.names
  }

  /** The listed local repository that comes first among those that hold the blob. */
  ghost predicate FirstHolder(d: Disk, digest: Digests.Digest, listing: seq<Repository>, name: Names.Name)
  {
    exists i ::
      && 0 <= i < |listing| && listing[i] == Local(name) && Holds(d, name, digest)
      && forall j :: 0 <= j < i && listing[j].Local? ==> !Holds(d, listing[j].name, digest)
  }

  class FileBlobMounter {
    const files: FileSystem

    constructor (files: FileSystem)
      ensures this.files == files
    {
      this.files := files;
    }

    method SearchInRepository(name: Names.Name, digest: Digests.Digest) returns (holds: bool)
      ensures holds <==> Holds(files.disk, name, digest)
    {
      holds := files.Exists(Content(KeyIn(name, digest)));
      if holds {
        holds := files.Exists(MediaType(KeyIn(name, digest)));
      }
    }

    /** Skips upstream repositories and the one already looked at; the first holder wins. */
    method SearchAcrossAllRepositories(listing: seq<Repository>, digest: Digests.Digest, skip: Option<Names.Name>)
      returns (found: Option<Names.Name>)
      ensures found.Some? ==>
                exists i ::
                  && 0 <= i < |listing| && listing[i] == Local(found.value) && Some(found.value) != skip
                  && Holds(files.disk, found.value, digest)
                  && forall j :: 0 <= j < i && listing[j].Local? && Some(listing[j].name) != skip ==>
                       !Holds(files.disk, listing[j].name, digest)
      ensures found.None? ==>
                forall n :: Local(n) in listing && Some(n) != skip ==> !Holds(files.disk, n, digest)
    {
      var i := 0;
      while i < |listing|
        invariant 0 <= i <= |listing|
        invariant forall j :: 0 <= j < i && listing[j].Local? && Some(listing[j].name) != skip ==>
                    !Holds(files.disk, listing[j].name, digest)
      {
        if listing[i].Local? && Some(listing[i].name) != skip {
          var holds := SearchInRepository(listing[i].name, digest);
          if holds {
            return Some(listing[i].name);
          }
        }
        i := i + 1;
      }
      return None;
    }

    /** `listing` is what the repository store lists, or None if it cannot. */
    method MountBlob(hint: Option<Names.Name>, digest: Digests.Digest, destination: Names.Name,
                     listing: Option<seq<Repository>>)
      returns (r: Result<bool, MountError>, ghost from: Option<Names.Name>, ghost events: seq<Event>)
      requires WellFormed(files.disk)
      modifies files`disk, files`failures
      // Ok(false): neither the hint nor any listed local repository holds both files, and conversely.
      ensures listing.Some? ==>
                (r == Ok(false) <==>
                  && (hint.Some? ==> !Holds(old(files.disk), hint.value, digest))
                  && (forall n :: Local(n) in listing.value ==> !Holds(old(files.disk), n, digest)))
      ensures r == Ok(false) ==> files.disk == old(files.disk) && listing.Some?
      ensures listing.None? && !(hint.Some? && Holds(old(files.disk), hint.value, digest)) ==> r.Err?
      // Ok(true): the destination names the source's own inodes, the hinted repository's if it holds them.
      ensures r == Ok(true) ==>
                && from.Some? && Holds(old(files.disk), from.value, digest)
                && (hint.Some? && Holds(old(files.disk), hint.value, digest) ==> from == hint)
                && (from == hint || (listing.Some? && Local(from.value) in listing.value))
                && (from != hint ==> FirstHolder(old(files.disk), digest, listing.value, from.value))
                && !Holds(old(files.disk), destination, digest) && Holds(files.disk, destination, digest)
                && files.disk == Mounted(old(files.disk), KeyIn(from.value, digest), KeyIn(destination, digest))
      // Where nothing fails, only a file in the destination stops the mount of a blob that somebody holds.
      ensures files.faultless && listing.Some? && r != Ok(false) ==>
                (r == Ok(true) <==>
                  && Content(KeyIn(destination, digest)) !in old(files.disk).names
                  && MediaType(KeyIn(destination, digest)) !in old(files.disk).names)
      // Err: nothing changed, unless undoing the first link failed.
      ensures r.Err? ==>
                || files.disk == old(files.disk)
                || (&& !files.deletesWork && from.Some?
                    && Holds(old(files.disk), from.value, digest)
                    && Content(KeyIn(destination, digest)) !in old(files.disk).names
                    && files.disk == Link(old(files.disk), Content(KeyIn(from.value, digest)),
                                          Content(KeyIn(destination, digest))))
      // The call is these events of the protocol.
      ensures forall sha: Bytes -> Bytes :: Reaches(sha, old(files.disk), events, files.disk)
    {
      hide Reaches;
      from, events := None, [];
      NoEvents(files.disk);
      var found: Option<Names.Name> := None;
      if hint.Some? {
        var holds := SearchInRepository(hint.value, digest);
        if holds {
          found := hint;
        }
      }
      if found.None? {
        if listing.None? {
          return Err(FileSystemError), None, [];
        }
        found := SearchAcrossAllRepositories(listing.value, digest, hint);
      }
      if found.None? {
        return Ok(false), None, [];
      }
      from := found;
      var source := KeyIn(found.value, digest);
      var target := KeyIn(destination, digest);
      var ok := files.CreateFolder();
      if !ok {
        return Err(FileSystemError), from, [];
      }
      ghost var d := files.disk;
      ok := files.CreateHardLink(Content(source), Content(target));
      if !ok {
        return Err(FileSystemError), from, [];
      }
      ok := files.CreateHardLink(MediaType(source), MediaType(target));
      if !ok {
        var deleted := files.Delete(Content(target));
        assert d.names[Content(target) := d.names[Content(source)]] - {Content(target)} == d.names;
        events := [LinkContent(source, target)] + if deleted then [DeleteFile(Content(target))] else [];
        UndoneMountEvents(d, source, target, deleted, events, files.disk);
        return Err(FileSystemError), from, events;
      }
      MountEvents(d, source, target);
      return Ok(true), from, [LinkContent(source, target), LinkMedia(source, target)];
    }
  }

  lemma NoEvents(d: Disk)
    ensures forall sha: Bytes -> Bytes :: Reaches(sha, d, [], d)
  {
    forall sha: Bytes -> Bytes
      ensures Reaches(sha, d, [], d)
    {
      ReachesNothing(sha, d);
    }
  }

  lemma FirstLinkEvent(sha: Bytes -> Bytes, d: Disk, from: BlobKey, to: BlobKey)
    requires Content(from) in d.names && Content(to) !in d.names && from.digest == to.digest
    ensures Reaches(sha, d, [LinkContent(from, to)], Link(d, Content(from), Content(to)))
  {
    ReachesNothing(sha, d);
    LinkContentLeads(sha, d, from, to);
    ReachesStep(sha, d, [], d, LinkContent(from, to), Link(d, Content(from), Content(to)));
    assert [] + [LinkContent(from, to)] == [LinkContent(from, to)];
  }

  lemma MountEvents(d: Disk, from: BlobKey, to: BlobKey)
    requires Content(from) in d.names && MediaType(from) in d.names && from.digest == to.digest
    requires Content(to) !in d.names && MediaType(to) !in d.names
    ensures forall sha: Bytes -> Bytes ::
              Reaches(sha, d, [LinkContent(from, to), LinkMedia(from, to)], Mounted(d, from, to))
  {
    hide Reaches, Leads;
    forall sha: Bytes -> Bytes
      ensures Reaches(sha, d, [LinkContent(from, to), LinkMedia(from, to)], Mounted(d, from, to))
    {
      var linked := Link(d, Content(from), Content(to));
      FirstLinkEvent(sha, d, from, to);
      LinkMediaLeads(sha, linked, from, to);
      ReachesStep(sha, d, [LinkContent(from, to)], linked, LinkMedia(from, to), Mounted(d, from, to));
      assert [LinkContent(from, to)] + [LinkMedia(from, to)] == [LinkContent(from, to), LinkMedia(from, to)];
    }
  }

  lemma UndoneMountEvents(d: Disk, from: BlobKey, to: BlobKey, deleted: bool, events: seq<Event>, d': Disk)
    requires Content(from) in d.names && Content(to) !in d.names && from.digest == to.digest
    requires events == [LinkContent(from, to)] + if deleted then [DeleteFile(Content(to))] else []
    requires d' == UnlinkIf(deleted, Link(d, Content(from), Content(to)), Content(to))
    ensures forall sha: Bytes -> Bytes :: Reaches(sha, d, events, d')
  {
    hide Reaches, Leads;
    forall sha: Bytes -> Bytes
      ensures Reaches(sha, d, events, d')
    {
      var linked := Link(d, Content(from), Content(to));
      FirstLinkEvent(sha, d, from, to);
      if deleted {
        DeleteLeads(sha, linked, Content(to));
        ReachesStep(sha, d, [LinkContent(from, to)], linked, DeleteFile(Content(to)), d');
      } else {
        assert [LinkContent(from, to)] + [] == [LinkContent(from, to)];
      }
    }
  }

  function Mounted(d: Disk, from: BlobKey, to: BlobKey): Disk
    requires Content(from) in d.names && MediaType(from) in d.names
  {
    Link(Link(d, Content(from), Content(to)), MediaType(from), MediaType(to))
  }

  /** A mount keeps the disk sound, and both repositories read the same bytes and media type. */
  lemma MountedIsSound(sha: Bytes -> Bytes, d: Disk, from: BlobKey, to: BlobKey)
    requires Sound(sha, d) && Content(from) in d.names && MediaType(from) in d.names
    requires from.digest == to.digest && Content(to) !in d.names && MediaType(to) !in d.names
    ensures var d' := Mounted(d, from, to);
            && Sound(sha, d') && KeepsContent(d, d', {Content(to)})
            && Read(d', Content(to)) == Read(d, Content(from)) && Read(d', MediaType(to)) == Read(d, MediaType(from))
  {
    LinkContentSound(sha, d, from, to);
    LinkMediaSound(sha, Link(d, Content(from), Content(to)), from, to);
  }

  /** Deleting one end of a mount leaves the other end's files as they were. */
  lemma MountSurvivesDelete(sha: Bytes -> Bytes, d: Disk, from: BlobKey, to: BlobKey)
    requires Sound(sha, d) && Content(from) in d.names && MediaType(from) in d.names && from != to
    requires from.digest == to.digest && Content(to) !in d.names && MediaType(to) !in d.names
    ensures var d' := Unlink(Unlink(Mounted(d, from, to), Content(from)), MediaType(from));
            && Content(to) in d'.names && Read(d', Content(to)) == Read(d, Content(from))
            && MediaType(to) in d'.names && Read(d', MediaType(to)) == Read(d, MediaType(from))
    ensures Unlink(Unlink(Mounted(d, from, to), Content(to)), MediaType(to)) == d
  {
    var undone := Unlink(Unlink(Mounted(d, from, to), Content(to)), MediaType(to));
    assert undone.names == d.names;
  }
}
