/** The commit protocol: rename, then write the media type, undoing everything when either fails. */
module BlobCommits {
  import opened Basics
  import opened BlobPaths
  import opened Disks
  import opened Files

  function CommitFiles(temp: Loc, b: BlobKey): seq<Loc>
  {
    [temp, Content(b), MediaType(b)]
  }

  /** Clean-up deletes the three files in this order and stops at the first delete that fails. */
  function CleanedUpTo(d: Disk, temp: Loc, b: BlobKey, n: nat): (d': Disk)
    requires n <= 3
    ensures d'.inodes == d.inodes && d'.next == d.next
    ensures d'.names == d.names - set i | 0 <= i < n :: CommitFiles(temp, b)[i]
  {
    if n == 0 then d else Unlink(CleanedUpTo(d, temp, b, n - 1), CommitFiles(temp, b)[n - 1])
  }

  /**
   How a commit went: whether the rename did, what the media type write wrote, how many deletes the
   clean-up after a failed write did, and how many the clean-up on leaving scope did.
   */
  datatype Fate = Fate(renamed: bool, written: Option<Bytes>, cleaned: nat, dropped: nat)

  ghost predicate Possible(d: Disk, temp: Loc, f: Fate)
  {
    && f.cleaned <= 3 && f.dropped <= 3
    && (f.renamed ==> temp in d.names)
    && (!f.renamed ==> f.written == None && f.cleaned == 0)
  }

  /** The disk after the rename and the media type write, before any clean-up. */
  function Tried(d: Disk, temp: Loc, b: BlobKey, f: Fate): Disk
    requires f.renamed ==> temp in d.names
  {
    var renamed := if f.renamed then Rename(d, temp, Content(b)) else d;
    if f.written.Some? then Overwrite(renamed, MediaType(b), f.written.value) else renamed
  }

  function CommitEffect(d: Disk, temp: Loc, b: BlobKey, f: Fate): Disk
    requires Possible(d, temp, f)
  {
    CleanedUpTo(CleanedUpTo(Tried(d, temp, b, f), temp, b, f.cleaned), temp, b, f.dropped)
  }

  /**
   What a commit leaves alone: every file but its own three, except that writing the media type shows in
   every file hard-linked to it, which only media types of the same digest can be.
   */
  ghost predicate Framed(d: Disk, d': Disk, temp: Loc, b: BlobKey)
  {
    forall l :: l !in {temp, Content(b), MediaType(b)} ==>
      && (l in d.names <==> l in d'.names)
      && ((l.MediaType? && l.blob.digest == b.digest) || ReadOrEmpty(d', l) == ReadOrEmpty(d, l))
  }

  lemma FramedTwice(d: Disk, d1: Disk, d2: Disk, temp: Loc, b: BlobKey)
    requires Framed(d, d1, temp, b) && Framed(d1, d2, temp, b)
    ensures Framed(d, d2, temp, b)
  {}

  lemma TriedFramed(d: Disk, temp: Loc, b: BlobKey, f: Fate)
    requires WellFormed(d) && SharesOnlyAlike(d) && Possible(d, temp, f) && (temp.UploadTemp? || temp.SaveTemp?)
    ensures Framed(d, Tried(d, temp, b, f), temp, b)
  {
    var renamed := if f.renamed then Rename(d, temp, Content(b)) else d;
    assert Framed(d, renamed, temp, b);
    assert WellFormed(renamed) && SharesOnlyAlike(renamed);
    if f.written.Some? {
      OverwriteFramed(renamed, temp, b, f.written.value);
      FramedTwice(d, renamed, Tried(d, temp, b, f), temp, b);
    }
  }

  lemma OverwriteFramed(d: Disk, temp: Loc, b: BlobKey, text: Bytes)
    requires WellFormed(d) && SharesOnlyAlike(d)
    ensures Framed(d, Overwrite(d, MediaType(b), text), temp, b)
  {
    var d' := Overwrite(d, MediaType(b), text);
    forall l | l in d.names && l != MediaType(b) && d'.names[l] == d'.names[MediaType(b)]
      ensures l.MediaType? && l.blob.digest == b.digest
    {
      assert MayShare(l, MediaType(b));
    }
  }

  lemma CleanedUpFramed(d: Disk, temp: Loc, b: BlobKey, n: nat)
    requires n <= 3
    ensures Framed(d, CleanedUpTo(d, temp, b, n), temp, b)
  {
    forall i | 0 <= i < n
      ensures CommitFiles(temp, b)[i] in {temp, Content(b), MediaType(b)}
    {}
  }

  lemma CommitFramed(d: Disk, temp: Loc, b: BlobKey, f: Fate)
    requires WellFormed(d) && SharesOnlyAlike(d) && Possible(d, temp, f) && (temp.UploadTemp? || temp.SaveTemp?)
    ensures Framed(d, CommitEffect(d, temp, b, f), temp, b)
  {
    hide Framed, Tried, CleanedUpTo;
    var tried := Tried(d, temp, b, f);
    var cleaned := CleanedUpTo(tried, temp, b, f.cleaned);
    TriedFramed(d, temp, b, f);
    CleanedUpFramed(tried, temp, b, f.cleaned);
    CleanedUpFramed(cleaned, temp, b, f.dropped);
    FramedTwice(d, tried, cleaned, temp, b);
    FramedTwice(d, cleaned, CommitEffect(d, temp, b, f), temp, b);
  }

  class BlobCommit {
    const files: FileSystem
    const temp: Loc
    const blob: BlobKey
    var completed: bool

    constructor (files: FileSystem, temp: Loc, blob: BlobKey)
      ensures this.files == files && this.temp == temp && this.blob == blob && !completed
    {
      this.files := files;
      this.temp := temp;
      this.blob := blob;
      this.completed := false;
    }

    method Complete(mediatype: Bytes) returns (ok: bool, ghost fate: Fate)
      requires !completed
      modifies this`completed, files`disk, files`failures
      ensures fate.dropped == 0 && Possible(old(files.disk), temp, fate)
      ensures files.disk == CommitEffect(old(files.disk), temp, blob, fate)
      ensures ok ==> completed && fate == Fate(true, Some(mediatype), 0, 0)
      ensures !ok ==> (completed <==> fate.cleaned == 3)
      ensures !ok && fate.renamed && files.deletesWork ==> completed
      ensures files.faultless && temp in old(files.disk).names ==> ok
    {
      ok := files.Rename(temp, Content(blob));
      fate := Fate(ok, None, 0, 0);
      if !ok {
        return;
      }
      ghost var written;
      ok, written := files.WriteAll(MediaType(blob), mediatype);
      fate := fate.(written := written);
      if ok {
        completed := true;
      } else {
        ghost var stage;
        var cleaned;
        cleaned, stage := CleanUp();
        fate := fate.(cleaned := stage);
      }
    }

    method CleanUp() returns (ok: bool, ghost stage: nat)
      modifies this`completed, files`disk, files`failures
      ensures stage <= 3 && files.disk == CleanedUpTo(old(files.disk), temp, blob, stage)
      ensures ok <==> stage == 3
      ensures completed == (ok || old(completed))
      ensures files.deletesWork || files.faultless ==> ok
    {
      stage := 0;
      ok := files.Delete(temp);
      if !ok { return; }
      stage := 1;
      assert files.disk == CleanedUpTo(old(files.disk), temp, blob, 1);
      ok := files.Delete(Content(blob));
      if !ok { return; }
      stage := 2;
      assert files.disk == CleanedUpTo(old(files.disk), temp, blob, 2);
      ok := files.Delete(MediaType(blob));
      if !ok { return; }
      stage := 3;
      completed := true;
    }

    /** Leaving scope: an unfinished commit cleans up, once more if an earlier clean-up failed. */
    method Drop() returns (ghost stage: nat)
      modifies this`completed, files`disk, files`failures
      ensures stage <= 3 && files.disk == CleanedUpTo(old(files.disk), temp, blob, stage)
      ensures old(completed) ==> stage == 0
      ensures !old(completed) && files.deletesWork ==> stage == 3
    {
      if completed {
        return 0;
      }
      var ok;
      ok, stage := CleanUp();
    }
  }

  /** The two ways a commit may end. */
  ghost predicate Stored(d: Disk, temp: Loc, b: BlobKey)
  {
    Content(b) in d.names && MediaType(b) in d.names && temp !in d.names
  }

  ghost predicate Absent(d: Disk, temp: Loc, b: BlobKey)
  {
    Content(b) !in d.names && MediaType(b) !in d.names && temp !in d.names
  }

  /** The order of the deletes: a clean-up that fails half way leaves no content without its media type. */
  lemma CleanUpOrder(d: Disk, temp: Loc, b: BlobKey, n: nat)
    requires n <= 3 && (temp.UploadTemp? || temp.SaveTemp?)
    ensures var d' := CleanedUpTo(d, temp, b, n);
            && (temp in d'.names <==> temp in d.names && n == 0)
            && (Content(b) in d'.names <==> Content(b) in d.names && n <= 1)
            && (MediaType(b) in d'.names <==> MediaType(b) in d.names && n <= 2)
            && (MediaType(b) in d.names && Content(b) in d'.names ==> MediaType(b) in d'.names)
  {
    var files := CommitFiles(temp, b);
    assert files[0] == temp && files[1] == Content(b) && files[2] == MediaType(b);
    assert forall i :: 0 <= i < n ==> files[i] in (set j | 0 <= j < n :: files[j]);
  }

  lemma CleanedUpIsAbsent(d: Disk, temp: Loc, b: BlobKey)
    ensures Absent(CleanedUpTo(d, temp, b, 3), temp, b)
  {
    var files := CommitFiles(temp, b);
    assert files[0] == temp && files[1] == Content(b) && files[2] == MediaType(b);
  }

  /**
   A commit used the way both its callers use it: complete, then leave scope. With deletes working it is
   all or nothing under every fault; when it succeeds, the content is the temporary file's very inode.
   */
  method CommitOnce(files: FileSystem, temp: Loc, blob: BlobKey, mediatype: Bytes) returns (ok: bool, ghost fate: Fate)
    requires temp.UploadTemp? || temp.SaveTemp?
    requires WellFormed(files.disk) && SharesOnlyAlike(files.disk)
    modifies files`disk, files`failures
    ensures files.deletesWork ==> if ok then Stored(files.disk, temp, blob) else Absent(files.disk, temp, blob)
    ensures ok ==>
              && temp in old(files.disk).names && Stored(files.disk, temp, blob)
              && files.disk.names[Content(blob)] == old(files.disk).names[temp]
              && Read(files.disk, Content(blob)) == Read(old(files.disk), temp)
              && Read(files.disk, MediaType(blob)) == mediatype
              && fate == Fate(true, Some(mediatype), 0, 0)
    ensures Possible(old(files.disk), temp, fate)
    ensures files.disk == CommitEffect(old(files.disk), temp, blob, fate)
    ensures Framed(old(files.disk), files.disk, temp, blob)
    ensures files.faultless && temp in old(files.disk).names ==> ok
  {
    hide Framed;
    var commit := new BlobCommit(files, temp, blob);
    ok, fate := commit.Complete(mediatype);
    ghost var d := files.disk;
    ghost var dropped := commit.Drop();
    fate := fate.(dropped := dropped);
    if !ok {
      CleanedUpIsAbsent(Tried(old(files.disk), temp, blob, fate), temp, blob);
      CleanedUpIsAbsent(d, temp, blob);
    }
    CommitFramed(old(files.disk), temp, blob, fate);
  }
}
