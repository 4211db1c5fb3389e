/** File operations that may fail at any moment, and byte streams that may be read in any portions. */
module Files {
  import opened Basics
  import opened BlobPaths
  import D = Disks
  import Names

  /**
   The file system behind the registry. Every operation may fail; an interrupted write leaves a prefix.
   `deletesWork` excludes deletes from the operations that can fail, and `faultless` all that could work. Of
   folders, only those of uploads are kept track of.
   */
  class FileSystem {
    var disk: D.Disk
    var uploadFolders: set<Names.Name>  // the repositories that have a folder of uploads
    const deletesWork: bool
    const faultless: bool
    ghost var failures: nat  // how many deletes and listings have failed

    constructor (disk: D.Disk, uploadFolders: set<Names.Name>, deletesWork: bool, faultless: bool)
      ensures this.disk == disk && this.uploadFolders == uploadFolders
      ensures this.deletesWork == deletesWork && this.faultless == faultless
    {
      this.disk := disk;
      this.uploadFolders := uploadFolders;
      this.deletesWork := deletesWork;
      this.faultless := faultless;
      this.failures := 0;
    }

    method CreateFolder() returns (ok: bool)
      ensures faultless ==> ok
    {
      ok := *;
      ok := ok || faultless;
    }

    method CreateUploadFolder(repository: Names.Name) returns (ok: bool)
      modifies this`uploadFolders
      ensures uploadFolders == if ok then old(uploadFolders) + {repository} else old(uploadFolders)
      ensures faultless ==> ok
    {
      ok := *;
      ok := ok || faultless;
      if ok {
        uploadFolders := uploadFolders + {repository};
      }
    }

    method Exists(l: Loc) returns (found: bool)
      ensures found <==> l in disk.names
    {
      found := l in disk.names;
    }

    /** A missing file counts as deleted. */
    method Delete(l: Loc) returns (ok: bool)
      modifies this`disk, this`failures
      ensures failures == old(failures) + if ok then 0 else 1
      ensures disk == if ok then D.Unlink(old(disk), l) else old(disk)
      ensures deletesWork || faultless ==> ok
    {
      ok := *;
      ok := ok || deletesWork || faultless;
      if ok {
        disk := D.Unlink(disk, l);
      } else {
        failures := failures + 1;
      }
    }

    method Rename(from: Loc, to: Loc) returns (ok: bool)
      modifies this`disk
      ensures ok ==> from in old(disk).names && disk == D.Rename(old(disk), from, to)
      ensures !ok ==> disk == old(disk)
      ensures faultless && from in old(disk).names ==> ok
    {
      ok := *;
      ok := (ok || faultless) && from in disk.names;
      if ok {
        disk := D.Rename(disk, from, to);
      }
    }

    /** Truncates in place; a failed call may have written some other text. */
    method WriteAll(l: Loc, text: Bytes) returns (ok: bool, ghost written: Option<Bytes>)
      modifies this`disk
      ensures disk == if written.Some? then D.Overwrite(old(disk), l, written.value) else old(disk)
      ensures ok ==> written == Some(text)
      ensures !ok && written.Some? ==> written.value <= text
      ensures faultless ==> ok
    {
      var started: bool := *;
      if !started && !faultless {
        return false, None;
      }
      var reached: int := *;
      if 0 <= reached < |text| && !faultless {
        disk := D.Overwrite(disk, l, text[..reached]);
        return false, Some(text[..reached]);
      }
      disk := D.Overwrite(disk, l, text);
      return true, Some(text);
    }

    /** Opens, creating the file if it is missing and its folder is there, then appends. */
    method AppendUpload(k: UploadKey, bytes: Bytes) returns (ok: bool, ghost written: Option<Bytes>)
      modifies this`disk
      ensures disk == if written.Some? then D.Append(old(disk), UploadTemp(k), written.value) else old(disk)
      ensures written.Some? ==> k.repository in uploadFolders
      ensures ok ==> written == Some(bytes)
      ensures !ok && written.Some? ==> written.value <= bytes
      ensures faultless && k.repository in uploadFolders ==> ok
    {
      var l := UploadTemp(k);
      var started: bool := *;
      if k.repository !in uploadFolders || (!started && !faultless) {
        return false, None;
      }
      var reached: int := *;
      if 0 <= reached < |bytes| && !faultless {
        disk := D.Append(disk, l, bytes[..reached]);
        return false, Some(bytes[..reached]);
      }
      disk := D.Append(disk, l, bytes);
      return true, Some(bytes);
    }

    /** Opens for appending and hands out the open file. */
    method OpenAppend(l: Loc) returns (handle: Option<D.Inode>)
      modifies this`disk
      ensures handle.Some? ==> disk == D.Touch(old(disk), l) && handle.value == disk.names[l]
      ensures handle.None? ==> disk == old(disk)
      ensures faultless ==> handle.Some?
    {
      var ok: bool := *;
      if !ok && !faultless {
        return None;
      }
      disk := D.Touch(disk, l);
      return Some(disk.names[l]);
    }

    /** Appends through an open file, whatever became of its name. */
    method WriteHandle(handle: D.Inode, bytes: Bytes) returns (ok: bool, ghost written: Bytes)
      modifies this`disk
      ensures disk == D.WriteInode(old(disk), handle, written)
      ensures written <= bytes && (ok ==> written == bytes)
      ensures faultless ==> ok
    {
      var reached: int := *;
      ok := faultless || !(0 <= reached < |bytes|);
      var done := if ok then bytes else bytes[..reached];
      disk := D.WriteInode(disk, handle, done);
      written := done;
    }

    /** Fails when the target already exists. */
    method CreateHardLink(from: Loc, to: Loc) returns (ok: bool)
      modifies this`disk
      ensures ok ==> from in old(disk).names && to !in old(disk).names && disk == D.Link(old(disk), from, to)
      ensures !ok ==> disk == old(disk)
      ensures faultless && from in old(disk).names && to !in old(disk).names ==> ok
    {
      ok := *;
      ok := (ok || faultless) && from in disk.names && to !in disk.names;
      if ok {
        disk := D.Link(disk, from, to);
      }
    }

    /** The files in a blob's own folder, in no particular order. */
    method ListBlob(b: BlobKey) returns (entries: Option<seq<Loc>>)
      modifies this`failures
      ensures failures == old(failures) + if entries.Some? then 0 else 1
      ensures entries.Some? ==>
                forall l :: l in entries.value <==> l in disk.names && l in {Content(b), MediaType(b), SaveTemp(b)}
      ensures faultless && Content(b) in disk.names ==> entries.Some?
    {
      var ok: bool := *;
      if !ok && !(faultless && Content(b) in disk.names) {
        failures := failures + 1;
        return None;
      }
      var rest, listed := set l | l in {Content(b), MediaType(b), SaveTemp(b)} && l in disk.names, [];
      while rest != {}
        invariant forall l ::
                    l in rest || l in listed <==> l in disk.names && l in {Content(b), MediaType(b), SaveTemp(b)}
        decreases rest
      {
        var l :| l in rest;
        rest, listed := rest - {l}, listed + [l];
      }
      return Some(listed);
    }

    /** The names of the files in a repository's folder of uploads, unsorted; fails where there is no folder. */
    method ListUploads(repository: Names.Name) returns (files: Option<seq<string>>)
      modifies this`failures
      ensures failures == old(failures) + if files.Some? then 0 else 1
      ensures files.Some? ==>
                && repository in uploadFolders
                && forall f :: f in files.value <==> UploadTemp(UploadKey(repository, f)) in disk.names
      ensures faultless && repository in uploadFolders ==> files.Some?
    {
      var ok: bool := *;
      if repository !in uploadFolders || (!ok && !faultless) {
        failures := failures + 1;
        return None;
      }
      var all := set l | l in disk.names && l.UploadTemp? && l.upload.repository == repository :: l.upload.uuid;
      assert forall f :: f in all <==> UploadTemp(UploadKey(repository, f)) in disk.names;
      var rest, listed := all, [];
      while rest != {}
        invariant forall f :: f in all <==> f in rest || f in listed
        decreases rest
      {
        var f :| f in rest;
        rest, listed := rest - {f}, listed + [f];
      }
      return Some(listed);
    }
  }

  /** A stream of bytes, read in portions of the reader's (and the network's) choosing. */
  class Source {
    var rest: Bytes
    const reliable: bool

    constructor (stream: Bytes, reliable: bool)
      ensures rest == stream && this.reliable == reliable
    {
      this.rest := stream;
      this.reliable := reliable;
    }

    /** At most `max` bytes, none only at the end of the stream; or, unless `reliable`, a network error. */
    method Read(max: nat) returns (portion: Option<Bytes>)
      requires max > 0
      modifies this
      ensures portion.Some? ==> |portion.value| <= max && old(rest) == portion.value + rest
      ensures portion.Some? ==> (portion.value == [] <==> old(rest) == [])
      ensures portion.None? ==> rest == old(rest)
      ensures reliable ==> portion.Some?
    {
      var fails: bool := *;
      if fails && !reliable {
        return None;
      }
      var n: int := *;
      if n <= 0 { n := 1; }
      if n > max { n := max; }
      if n > |rest| { n := |rest|; }
      portion := Some(rest[..n]);
      rest := rest[n..];
    }
  }
}
