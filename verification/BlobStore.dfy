/** Saving a stream under a claimed digest, and deleting a stored blob. */
module BlobStore {
  import opened Basics
  import opened BlobPaths
  import opened Disks
  import opened Files
  import opened BlobCommits
  import opened BlobRuns
  import opened UploadProtocol
  import Digests

  datatype StoreError =
    | DigestNotFound
    | FailedToRetrieveDigest
    | DigestMismatch(computed: Digests.Digest)

  const BUFFER_SIZE := 65536

  /** The temporary file appended to, if it could be opened, and deleted again on some errors. */
  function TempEffect(d: Disk, temp: Loc, appended: Option<Bytes>, deleted: bool): Disk
  {
    var d' := if appended.Some? then Append(d, temp, appended.value) else d;
    UnlinkIf(deleted, d', temp)
  }

  lemma OpenedIsAppended(d: Disk, l: Loc)
    requires WellFormed(d)
    ensures Touch(d, l) == Append(d, l, [])
  {
    var d' := Touch(d, l);
    assert Held(d', d'.names[l]) + [] == Held(d', d'.names[l]);
    assert d'.inodes[d'.names[l] := d'.inodes[d'.names[l]]] == d'.inodes;
  }

  lemma AppendTwice(d: Disk, l: Loc, first: Bytes, second: Bytes)
    ensures var d' := Append(d, l, first);
            WriteInode(d', d'.names[l], second) == Append(d, l, first + second)
  {
    var touched := Touch(d, l);
    assert Held(touched, touched.names[l]) + first + second == Held(touched, touched.names[l]) + (first + second);
  }

  lemma TempEffectSound(sha: Bytes -> Bytes, d: Disk, b: BlobKey, appended: Option<Bytes>, deleted: bool)
    requires Sound(sha, d)
    ensures WellFormed(TempEffect(d, SaveTemp(b), appended, deleted))
    ensures SharesOnlyAlike(TempEffect(d, SaveTemp(b), appended, deleted))
    ensures var d' := TempEffect(d, SaveTemp(b), appended, deleted);
            && Sound(sha, d') && Framed(d, d', SaveTemp(b), b)
            && (appended.Some? && !deleted ==>
                 SaveTemp(b) in d'.names && Read(d', SaveTemp(b)) == ReadOrEmpty(d, SaveTemp(b)) + appended.value)
  {
    if appended.Some? {
      AppendTempSound(sha, d, SaveTemp(b), appended.value);
      assert forall l :: l in d.names && l != SaveTemp(b) && SaveTemp(b) in d.names ==>
          d.names[l] != d.names[SaveTemp(b)];
    }
  }

  lemma CleanedUpSound(sha: Bytes -> Bytes, d: Disk, b: BlobKey, n: nat)
    requires Sound(sha, d) && n <= 3
    ensures Sound(sha, CleanedUpTo(d, SaveTemp(b), b, n))
  {
    if n > 0 {
      CleanedUpSound(sha, d, b, n - 1);
      UnlinkSound(sha, CleanedUpTo(d, SaveTemp(b), b, n - 1), CommitFiles(SaveTemp(b), b)[n - 1]);
    }
  }

  lemma CommitEffectSound(sha: Bytes -> Bytes, d: Disk, b: BlobKey, f: Fate)
    requires Sound(sha, d) && Possible(d, SaveTemp(b), f)
    requires f.renamed ==> Matches(sha, b.digest, Read(d, SaveTemp(b)))
    ensures Sound(sha, CommitEffect(d, SaveTemp(b), b, f))
  {
    hide Sound, CleanedUpTo;
    var renamed := if f.renamed then Rename(d, SaveTemp(b), Content(b)) else d;
    if f.renamed { PublishSound(sha, d, SaveTemp(b), b); }
    if f.written.Some? { OverwriteMediaSound(sha, renamed, b, f.written.value); }
    var tried := Tried(d, SaveTemp(b), b, f);
    CleanedUpSound(sha, tried, b, f.cleaned);
    CleanedUpSound(sha, CleanedUpTo(tried, SaveTemp(b), b, f.cleaned), b, f.dropped);
  }

  lemma FramedSame(d: Disk, b: BlobKey)
    ensures Framed(d, d, SaveTemp(b), b)
  {}

  /** Deleting some of a blob's files. */
  lemma FewerNamesSound(sha: Bytes -> Bytes, d: Disk, d': Disk, b: BlobKey)
    requires Sound(sha, d) && d' == d.(names := d'.names)
    requires forall l :: l in d'.names ==> l in d.names && d'.names[l] == d.names[l]
    requires forall l :: l in d.names && l !in d'.names ==> l in {Content(b), MediaType(b), SaveTemp(b)}
    ensures Sound(sha, d') && Framed(d, d', SaveTemp(b), b)
  {}

  class FileBlobStore {
    const files: FileSystem
    const sha: Bytes -> Bytes

    constructor (files: FileSystem, sha: Bytes -> Bytes)
      ensures this.files == files && this.sha == sha
    {
      this.files := files;
      this.sha := sha;
    }

    /** Fill a whole buffer, however short the reads: only the end of the stream leaves it part empty. */
    method FillBuffer(source: Source) returns (buffer: Option<Bytes>)
      modifies source
      ensures buffer.Some? ==> old(source.rest) == buffer.value + source.rest
      ensures buffer.Some? ==> |buffer.value| <= BUFFER_SIZE
      ensures buffer.Some? ==> |buffer.value| == BUFFER_SIZE || source.rest == []
      ensures source.reliable ==> buffer.Some?
    {
      var filled: Bytes := [];
      while |filled| < BUFFER_SIZE
        invariant |filled| <= BUFFER_SIZE && old(source.rest) == filled + source.rest
        decreases |source.rest|
      {
        var read := source.Read(BUFFER_SIZE - |filled|);
        if read.None? {
          return None;
        }
        if read.value == [] {
          break;
        }
        filled := filled + read.value;
      }
      return Some(filled);
    }

    /**
     Leaving early drops the writer, which deletes the file it was writing. `events` is what this is in the
     protocol, when no earlier save left its temporary file; on success the saver is still open.
     */
    method HashedReadToTempFile(b: BlobKey, source: Source)
      returns (hash: Option<Bytes>, ghost appended: Option<Bytes>, ghost deleted: bool, ghost events: seq<Event>)
      requires WellFormed(files.disk)
      modifies files`disk, files`failures, source
      ensures files.disk == TempEffect(old(files.disk), SaveTemp(b), appended, deleted)
      ensures hash.Some? ==> hash.value == sha(old(source.rest)) && appended == Some(old(source.rest)) && !deleted
      ensures hash.None? && files.deletesWork ==> appended == None || deleted
      ensures files.faultless && source.reliable ==> hash.Some?
      ensures SaveTemp(b) !in old(files.disk).names ==>
                if hash.None? then SaveReaches(sha, b, old(files.disk), events, files.disk, None)
                else
                  && SaveTemp(b) in files.disk.names
                  && SaveReaches(sha, b, old(files.disk), events, files.disk,
                                 Some(Saver(files.disk.names[SaveTemp(b)], old(source.rest), true)))
    {
      hide SaveReaches, SaveLeads;
      var temp := SaveTemp(b);
      ghost var d, clean := files.disk, temp !in files.disk.names;
      appended, deleted, events := None, false, [];
      SaveReachesNothing(sha, b, d);
      var handle := files.OpenAppend(temp);
      if handle.None? {
        return None, None, false, [];
      }
      var absorbed: Bytes := [];
      OpenedIsAppended(d, temp);
      if clean {
        OpenLeads(sha, b, d);
        SaveReachesStep(sha, b, d, [], d, None, SaveOpen(b), files.disk, Some(Saver(handle.value, [], true)));
        events := [] + [SaveOpen(b)];
      }
      while true
        invariant old(source.rest) == absorbed + source.rest
        invariant files.disk == Append(d, temp, absorbed) && handle.value == files.disk.names[temp]
        invariant clean ==> SaveReaches(sha, b, d, events, files.disk, Some(Saver(handle.value, absorbed, true)))
        decreases |source.rest|
      {
        ghost var d1, v1 := files.disk, Saver(handle.value, absorbed, true);
        var buffer := FillBuffer(source);
        if buffer.None? {
          var ok := files.Delete(temp);
          events := EndEvents(b, d, events, d1, v1, ok, clean);
          return None, Some(absorbed), ok, events;
        }
        if buffer.value == [] {
          break;
        }
        ghost var written;
        var ok;
        ok, written := files.WriteHandle(handle.value, buffer.value);
        AppendTwice(d, temp, absorbed, written);
        ghost var v2 := Saver(handle.value, absorbed + buffer.value, ok);
        if clean {
          ghost var e := SaveWrite(b, buffer.value, if ok then Done else CutShort(|written|));
          WriteLeads(sha, b, d1, v1, buffer.value, written, ok);
          SaveReachesStep(sha, b, d, events, d1, Some(v1), e, files.disk, Some(v2));
          events := events + [e];
        }
        if !ok {
          ghost var d2 := files.disk;
          ok := files.Delete(temp);
          events := EndEvents(b, d, events, d2, v2, ok, clean);
          return None, Some(absorbed + written), ok, events;
        }
        absorbed := absorbed + buffer.value;
      }
      assert absorbed == old(source.rest);
      return Some(sha(absorbed)), Some(absorbed), false, events;
    }

    ghost method EndEvents(b: BlobKey, d: Disk, es: seq<Event>, d1: Disk, v: Saver, deleted: bool, clean: bool)
      returns (events: seq<Event>)
      requires clean ==> SaveReaches(sha, b, d, es, d1, Some(v))
      ensures clean ==> SaveReaches(sha, b, d, events, UnlinkIf(deleted, d1, SaveTemp(b)), None)
    {
      hide SaveReaches, SaveLeads;
      events := es + [SaveEnd(b, deleted)];
      if clean {
        EndLeads(sha, b, d1, v, deleted);
        SaveReachesStep(
          sha, b, d, es, d1, Some(v), SaveEnd(b, deleted), UnlinkIf(deleted, d1, SaveTemp(b)), None);
      }
    }

    /** Asking for a manifest's root creates it. */
    method OpenRoot(kind: Kind) returns (ok: bool)
      ensures files.faultless || kind == Blob ==> ok
    {
      ok := true;
      if kind == Manifest {
        ok := files.CreateFolder();
      }
    }

    /**
     The commit goes out of scope uncompleted, after an explicit clean-up on a mismatch; `stage` and `dropped`
     tell how far the two clean-ups got.
     */
    method DropUnverified(b: BlobKey, cleanFirst: bool) returns (cleaned: bool, ghost stage: nat, ghost dropped: nat)
      requires Sound(sha, files.disk)
      modifies files`disk, files`failures
      ensures Sound(sha, files.disk)
      ensures files.deletesWork ==> Absent(files.disk, SaveTemp(b), b)
      ensures files.deletesWork || files.faultless ==> cleaned
      ensures Framed(old(files.disk), files.disk, SaveTemp(b), b)
      ensures forall l :: l in files.disk.names ==> l in old(files.disk).names
      ensures stage <= 3 && dropped <= 3
      ensures files.disk
           == CleanedUpTo(CleanedUpTo(old(files.disk), SaveTemp(b), b, stage), SaveTemp(b), b, dropped)
    {
      var commit := new BlobCommit(files, SaveTemp(b), b);
      stage := 0;
      cleaned := true;
      if cleanFirst {
        cleaned, stage := commit.CleanUp();
      }
      ghost var d := files.disk;
      dropped := commit.Drop();
      CleanedUpSound(sha, old(files.disk), b, stage);
      CleanedUpSound(sha, d, b, dropped);
      CleanedUpFramed(old(files.disk), SaveTemp(b), b, stage);
      CleanedUpFramed(d, SaveTemp(b), b, dropped);
      FramedTwice(old(files.disk), d, files.disk, SaveTemp(b), b);
      CleanedUpIsAbsent(old(files.disk), SaveTemp(b), b);
      CleanedUpIsAbsent(d, SaveTemp(b), b);
    }

    /** A save that is dropped: the saver, if still open, ends, and the clean-ups delete what they can. */
    ghost method DropEvents(b: BlobKey, d: Disk, es: seq<Event>, d1: Disk, stage: nat, dropped: nat, clean: bool)
      returns (events: seq<Event>)
      requires stage <= 3 && dropped <= 3
      requires clean ==> SaveReaches(sha, b, d, es, d1, None)
      ensures clean ==>
                SaveReaches(sha, b, d, events,
                            CleanedUpTo(CleanedUpTo(d1, SaveTemp(b), b, stage), SaveTemp(b), b, dropped), None)
    {
      hide SaveReaches;
      events := es + Deletes(b, stage) + Deletes(b, dropped);
      if clean {
        CleanUpReaches(sha, b, d, es, d1, stage);
        CleanUpReaches(sha, b, d, es + Deletes(b, stage), CleanedUpTo(d1, SaveTemp(b), b, stage), dropped);
      }
    }

    /** The commit object of the source is dropped on every path out of this method. */
    method Save(b: BlobKey, source: Source, mediatype: Bytes)
      returns (r: Result<(), StoreError>, ghost events: seq<Event>)
      requires Sound(sha, files.disk) && Digests.Valid(b.digest) && forall bytes :: |sha(bytes)| == 32
      modifies files`disk, files`failures, source
      // A blob that is there already is left alone.
      ensures Content(b) in old(files.disk).names ==>
                && files.disk == old(files.disk) && source.rest == old(source.rest)
                && r in {Ok(()), Err(FailedToRetrieveDigest)}
      // Ok: the whole stream, behind whatever an earlier save left in the temporary file.
      ensures Content(b) !in old(files.disk).names && r.Ok? ==>
                && Stored(files.disk, SaveTemp(b), b)
                && Read(files.disk, Content(b)) == ReadOrEmpty(old(files.disk), SaveTemp(b)) + old(source.rest)
                && Read(files.disk, MediaType(b)) == mediatype
                && Digests.AsBytes(b.digest) == sha(old(source.rest))
      ensures r.Err? && r.error.DigestMismatch? ==>
                && Digests.FromBytes(sha(old(source.rest))) == Ok(r.error.computed)
                && Digests.AsBytes(b.digest) != sha(old(source.rest))
      // Where nothing fails, a wrong digest is all that can go wrong.
      ensures files.faultless && source.reliable ==>
                && (r.Ok? <==>
                     || Content(b) in old(files.disk).names
                     || Digests.AsBytes(b.digest) == sha(old(source.rest)))
                && (r.Err? ==> r.error.DigestMismatch?)
      ensures r.Err? ==> r.error.DigestMismatch? || r.error == FailedToRetrieveDigest
      // Nothing is left over, and after an error nothing is stored, whatever else failed.
      ensures files.deletesWork && SaveTemp(b) !in old(files.disk).names ==> SaveTemp(b) !in files.disk.names
      ensures files.deletesWork && r.Err? && Content(b) !in old(files.disk).names ==> Content(b) !in files.disk.names
      // Without a leftover, what is stored matches its digest.
      ensures SaveTemp(b) !in old(files.disk).names ==> Sound(sha, files.disk)
      // Leftover or not, no other blob's files are touched.
      ensures Framed(old(files.disk), files.disk, SaveTemp(b), b)
      // Without a leftover, the call is these events of the protocol.
      ensures SaveTemp(b) !in old(files.disk).names ==>
                SaveReaches(sha, b, old(files.disk), events, files.disk, None)
    {
      assert WellFormed(files.disk);
      hide Sound, CommitEffect, TempEffect, Possible, Framed, SaveReaches;
      ghost var d0, clean := files.disk, SaveTemp(b) !in files.disk.names;
      SaveReachesNothing(sha, b, d0);
      FramedSame(d0, b);
      events := [];
      var rooted := OpenRoot(b.kind);
      if !rooted {
        return Err(FailedToRetrieveDigest), events;
      }
      var found := files.Exists(Content(b));
      if found {
        return Ok(()), events;
      }
      rooted := OpenRoot(b.kind);
      var created := false;
      if rooted {
        created := files.CreateFolder();
      }
      if !created {
        return Err(FailedToRetrieveDigest), events;
      }
      ghost var appended, deleted, fate;
      var hash;
      hash, appended, deleted, events := HashedReadToTempFile(b, source);
      TempEffectSound(sha, d0, b, appended, deleted);
      ghost var d := files.disk;
      if hash.None? {
        ghost var stage, dropped;
        var cleaned;
        cleaned, stage, dropped := DropUnverified(b, false);
        events := DropEvents(b, d0, events, d, stage, dropped, clean);
        FramedTwice(d0, d, files.disk, SaveTemp(b), b);
        return Err(FailedToRetrieveDigest), events;
      }
      if Digests.AsBytes(b.digest) != hash.value {
        if clean {
          events := EndEvents(
            b, d0, events, d, Saver(d.names[SaveTemp(b)], old(source.rest), true), false, clean);
        }
        ghost var stage, dropped;
        var cleaned;
        cleaned, stage, dropped := DropUnverified(b, true);
        events := DropEvents(b, d0, events, d, stage, dropped, clean);
        FramedTwice(d0, d, files.disk, SaveTemp(b), b);
        Digests.BytesRoundTrip(hash.value);
        return Err(if cleaned then DigestMismatch(Digests.FromBytes(hash.value).value) else FailedToRetrieveDigest),
               events;
      }
      var ok;
      ok, fate := CommitOnce(files, SaveTemp(b), b, mediatype);
      FramedTwice(d0, d, files.disk, SaveTemp(b), b);
      if clean {
        CommitReaches(sha, b, d0, events, d, Saver(d.names[SaveTemp(b)], old(source.rest), true), fate);
        events := events + CommitEvents(b, fate);
        assert ReadOrEmpty(d0, SaveTemp(b)) + old(source.rest) == old(source.rest);
        CommitEffectSound(sha, d, b, fate);
      }
      return if ok then Ok(()) else Err(FailedToRetrieveDigest), events;
    }

    /** Deletes every file in the blob's folder, stopping at the first delete that fails. */
    method Delete(b: BlobKey) returns (r: Result<(), StoreError>, ghost events: seq<Event>)
      requires Sound(sha, files.disk)
      modifies files`disk, files`failures
      ensures Sound(sha, files.disk)
      ensures Framed(old(files.disk), files.disk, SaveTemp(b), b)
      ensures Content(b) !in old(files.disk).names ==>
                files.disk == old(files.disk) && r in {Err(DigestNotFound), Err(FailedToRetrieveDigest)}
      // Only a manifest's root has to be created first, which can fail.
      ensures r == Err(DigestNotFound) ==> Content(b) !in old(files.disk).names
      ensures files.faultless || b.kind == Blob ==> (Content(b) !in old(files.disk).names ==> r == Err(DigestNotFound))
      ensures r.Err? ==> r.error in {DigestNotFound, FailedToRetrieveDigest}
      ensures r.Ok? ==>
                files.disk ==
                old(files.disk).(names := old(files.disk).names - {Content(b), MediaType(b), SaveTemp(b)})
      ensures files.faultless ==> (r.Ok? <==> Content(b) in old(files.disk).names)
      ensures Reaches(sha, old(files.disk), events, files.disk)
      // It stops at the first failure.
      ensures r.Ok? ==> files.failures == old(files.failures)
      ensures files.failures <= old(files.failures) + 1
    {
      hide Sound, Framed, Reaches, Leads;
      FramedSame(files.disk, b);
      events := [];
      ReachesNothing(sha, files.disk);
      var rooted := OpenRoot(b.kind);
      if !rooted {
        return Err(FailedToRetrieveDigest), events;
      }
      var found := files.Exists(Content(b));
      if !found {
        return Err(DigestNotFound), events;
      }
      var entries := files.ListBlob(b);
      if entries.None? {
        return Err(FailedToRetrieveDigest), events;
      }
      var i := 0;
      while i < |entries.value|
        invariant 0 <= i <= |entries.value|
        invariant files.disk == old(files.disk).(names := files.disk.names)
        invariant forall l :: l in files.disk.names ==>
                    l in old(files.disk).names && files.disk.names[l] == old(files.disk).names[l]
        invariant forall l :: l in old(files.disk).names ==> (l !in files.disk.names <==> l in entries.value[..i])
        invariant Reaches(sha, old(files.disk), events, files.disk)
        invariant files.failures == old(files.failures)
      {
        ghost var before := files.disk;
        assert entries.value[i] in entries.value;
        var deleted := files.Delete(entries.value[i]);
        if !deleted {
          FewerNamesSound(sha, old(files.disk), files.disk, b);
          return Err(FailedToRetrieveDigest), events;
        }
        DeleteLeads(sha, before, entries.value[i]);
        ReachesStep(sha, old(files.disk), events, before, DeleteFile(entries.value[i]), files.disk);
        events := events + [DeleteFile(entries.value[i])];
        i := i + 1;
      }
      assert entries.value[..i] == entries.value;
      FewerNamesSound(sha, old(files.disk), files.disk, b);
      return Ok(()), events;
    }
  }

  /** What a successful save leaves, apart from the media type. */
  function Saved(d: Disk, b: BlobKey, stream: Bytes): Disk
  {
    Rename(Append(d, SaveTemp(b), stream), SaveTemp(b), Content(b))
  }

  /**
   The temporary file has a fixed name and is opened for appending, and only the stream is hashed. So a
   leftover goes into the stored blob unseen: a save of a stream that matches its digest stores a matching
   blob exactly when the leftover does not change the hash, which without a collision means there was none.
   */
  lemma LeftoverDecidesSave(sha: Bytes -> Bytes, d: Disk, b: BlobKey, stream: Bytes)
    requires Sound(sha, d) && Matches(sha, b.digest, stream)
    ensures var leftover := ReadOrEmpty(d, SaveTemp(b));
            && (Sound(sha, Saved(d, b, stream)) <==> sha(leftover + stream) == sha(stream))
            && ((sha(leftover + stream) == sha(stream) ==> leftover + stream == stream) ==>
                 (Sound(sha, Saved(d, b, stream)) <==> leftover == []))
  {
    var leftover := ReadOrEmpty(d, SaveTemp(b));
    AppendTempSound(sha, d, SaveTemp(b), stream);
    var appended := Append(d, SaveTemp(b), stream);
    assert Read(Saved(d, b, stream), Content(b)) == leftover + stream;
    if sha(leftover + stream) == sha(stream) {
      PublishSound(sha, appended, SaveTemp(b), b);
    }
    assert leftover + stream == stream ==> |leftover| == 0;
    assert leftover == [] ==> leftover + stream == stream;
  }

  /** One byte left over in front of one byte saved: a blob that does not match its digest. */
  lemma LeftoverSpoilsSave(sha: Bytes -> Bytes, b: BlobKey)
    requires Matches(sha, b.digest, [2]) && sha([1, 2]) != sha([2])
    ensures var d := Disk(map[SaveTemp(b) := 0], map[0 := [1]], 1);
            && Sound(sha, d) && !Sound(sha, Saved(d, b, [2]))
            && Content(b) in Saved(d, b, [2]).names && Read(Saved(d, b, [2]), Content(b)) == [1, 2]
  {
    hide Matches;
    var d := Disk(map[SaveTemp(b) := 0], map[0 := [1]], 1);
    LeftoverDecidesSave(sha, d, b, [2]);
    assert [1] + [2] == [1, 2];
  }
}
