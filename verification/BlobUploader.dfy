/**
 The uploader as the program writes it: a mutex-guarded table of live uploads updated in place, with
 temporary files appended outside the mutex. Every method is tied to the steps of `UploadProtocol`.
 */
module BlobUploader {
  import opened Basics
  import opened BlobPaths
  import opened Disks
  import opened Repositories
  import opened Sessions
  import opened UploadProtocol
  import opened UploadSafety
  import opened UploadTheorems
  import opened UploadLifetimes
  import opened Files
  import opened BlobCommits
  import opened BlobRuns
  import Digests
  import Names

  datatype UploadError =
    | UnknownUuid
    | DigestMismatch
    | FileSystemError
    | NetworkError
    | HashFailure
    | RangeMismatch(expected: nat, received: nat)
    | Panicked

  /** What a write_chunk call carries out of the first locked block. */
  datatype Taken = Taken(hasher: Bytes, offset: nat)

  ghost function OutcomeOf(ok: bool, written: Option<Bytes>): Outcome
  {
    if ok then Done else if written.None? then NotOpened else CutShort(|written.value|)
  }

  /** Every file but `changed` is as it was. */
  ghost predicate Elsewhere(d: Disk, d': Disk, changed: Loc)
  {
    forall l :: l != changed ==> (l in d.names <==> l in d'.names) && ReadOrEmpty(d', l) == ReadOrEmpty(d, l)
  }

  /** Every other upload has the session it had. */
  ghost predicate OtherSessions(t: Table, t': Table, k: UploadKey)
  {
    forall j :: j != k ==> Lookup(t', j) == Lookup(t, j)
  }

  lemma NotDone(ok: bool, written: Option<Bytes>)
    ensures OutcomeOf(ok, written).Done? <==> ok
  {}

  /** The hasher absorbs a portion and the append of it runs. */
  ghost function AfterPortion(sha: Bytes -> Bytes, s: State, id: nat, portion: Bytes, o: Outcome): State
    requires Enabled(sha, s, Spawn(id, portion))
  {
    Apply(sha, Apply(sha, s, Spawn(id, portion)), RunAppend(id, o))
  }

  lemma PortionKeeps(sha: Bytes -> Bytes, s: State, id: nat, portion: Bytes, ok: bool, written: Option<Bytes>)
    requires Inv(sha, s) && Enabled(sha, s, Spawn(id, portion))
    requires ok ==> written == Some(portion)
    requires !ok && written.Some? ==> written.value <= portion
    ensures var s' := AfterPortion(sha, s, id, portion, OutcomeOf(ok, written));
            && Inv(sha, s') && s'.table == s.table && s'.poisoned == s.poisoned
            && s' == s.(disk := s'.disk, writers := s'.writers)
            && s'.disk ==
               (if written.Some? then Append(s.disk, UploadTemp(s.writers[id].key), written.value) else s.disk)
            && (!ok ==> Doomed(s', s.writers[id].key))
            && Elsewhere(s.disk, s'.disk, UploadTemp(s.writers[id].key))
  {
    AppendFrame(sha, s, s.writers[id].key, portion, OutcomeOf(ok, written));
    SpawnKeeps(sha, s, id, portion);
    if !ok {
      FailedWriteDooms(sha, Apply(sha, s, Spawn(id, portion)), id, RunAppend(id, OutcomeOf(ok, written)));
    }
    RunAppendKeeps(sha, Apply(sha, s, Spawn(id, portion)), id, OutcomeOf(ok, written));
    if written.Some? { assert Reached(portion, OutcomeOf(ok, written)) == written.value; }
  }

  lemma HeldHasher(sha: Bytes -> Bytes, s: State, k: UploadKey)
    requires Inv(sha, s) && HasherIn(s.table, k)
    ensures var held := ReadOrEmpty(s.disk, UploadTemp(k)); Lookup(s.table, k) == Some(Upload(Some(held), |held|))
  {
    assert KeyOk(sha, s, k);
  }

  lemma OffsetIsTotal(sha: Bytes -> Bytes, s: State, k: UploadKey)
    requires Inv(sha, s) && Lookup(s.table, k).Some?
    ensures Lookup(s.table, k).value.offset == |Concat(AckedBy(s, k))|
  {
    assert KeyOk(sha, s, k);
  }

  lemma HeldIsAcked(sha: Bytes -> Bytes, s: State, k: UploadKey)
    requires Inv(sha, s) && HasherIn(s.table, k)
    ensures Lookup(s.table, k).value.hasher.value == Concat(AckedBy(s, k))
    ensures UploadTemp(k) in s.disk.names <==> Concat(AckedBy(s, k)) != []
  {
    assert KeyOk(sha, s, k);
  }

  lemma WriterIsAcked(sha: Bytes -> Bytes, s: State, id: nat)
    requires Inv(sha, s) && id in s.writers
    ensures s.writers[id].key in s.acked
  {
    assert KeyOk(sha, s, s.writers[id].key) && WriterOk(s, id);
  }

  /** One turn of the loop of write_chunk is two events. */
  lemma PortionRuns(
    sha: Bytes -> Bytes, s: State, es: seq<Event>, s1: State, id: nat, portion: Bytes, o: Outcome)
    requires RunsTo(sha, s, es, s1) && Enabled(sha, s1, Spawn(id, portion))
    ensures var s2 := AfterPortion(sha, s1, id, portion, o);
            var w := s1.writers[id];
            && RunsTo(sha, s, es + [Spawn(id, portion)] + [RunAppend(id, o)], s2)
            && (o.Done? ==>
                 && id in s2.writers
                 && s2.writers[id] == Writer(w.key, w.hasher + portion, w.start, w.written + |portion|, None))
  {
    hide RunsTo;
    RunsStep(sha, s, es, s1, Spawn(id, portion));
    RunsStep(sha, s, es + [Spawn(id, portion)], Apply(sha, s1, Spawn(id, portion)), RunAppend(id, o));
  }

  /** What putting the hasher back does, when the session is still there and when it is not. */
  lemma PutState(sha: Bytes -> Bytes, s: State, id: nat)
    requires Inv(sha, s) && !s.poisoned && id in s.writers && s.writers[id].pending.None?
    ensures var w := s.writers[id];
            var s' := Apply(sha, s, Put(id));
            && Enabled(sha, s, Put(id)) && Inv(sha, s') && w.key in s.acked && s'.acked.Keys == s.acked.Keys
            && s' == s.(table := s'.table, writers := s'.writers, acked := s'.acked)
            && (Lookup(s.table, w.key).None? ==> s'.table == s.table)
            && (Lookup(s.table, w.key).Some? ==>
                 && s'.table == Insert(s.table, w.key, Upload(Some(w.hasher), w.start + w.written))
                 && w.hasher == ReadOrEmpty(s.disk, UploadTemp(w.key))
                 && AckedBy(s', w.key) == AckedBy(s, w.key) + [Body(w)])
  {
    hide Inv, Body;
    PutKeeps(sha, s, id);
    WriterIsAcked(sha, s, id);
    if Lookup(s.table, s.writers[id].key).Some? { PutAbsorbed(sha, s, id); }
  }

  lemma SealedIsOver(sha: Bytes -> Bytes, s: State, k: UploadKey)
    requires Inv(sha, s) && k in s.commits
    ensures Lookup(s.table, k).None?
    ensures UploadTemp(k) in s.disk.names ==> Read(s.disk, UploadTemp(k)) == Concat(AckedBy(s, k))
  {
    assert KeyOk(sha, s, k);
  }

  lemma OneEvent(sha: Bytes -> Bytes, s: State, e: Event)
    requires Enabled(sha, s, e)
    ensures RunsTo(sha, s, [e], Apply(sha, s, e))
  {
    RunsNowhere(sha, s);
    RunsStep(sha, s, [], s, e);
    assert [] + [e] == [e];
  }

  /** The three ways the locked block of complete leaves the registry. */
  lemma SealedState(sha: Bytes -> Bytes, s: State, k: UploadKey, b: BlobKey)
    requires Inv(sha, s) && !s.poisoned && HasherIn(s.table, k) && b.repository == Local(k.repository)
    requires b.kind == Blob && Matches(sha, b.digest, Lookup(s.table, k).value.hasher.value)
    ensures Enabled(sha, s, Seal(k, b))
    ensures Apply(sha, s, Seal(k, b)) == s.(table := Remove(s.table, k), commits := s.commits[k := b])
    ensures Inv(sha, Apply(sha, s, Seal(k, b))) && RunsTo(sha, s, [Seal(k, b)], Apply(sha, s, Seal(k, b)))
  {
    hide RunsTo;
    SealKeeps(sha, s, k, b);
    OneEvent(sha, s, Seal(k, b));
  }

  lemma PanickedState(sha: Bytes -> Bytes, s: State, k: UploadKey, deleted: bool)
    requires Inv(sha, s) && !s.poisoned && HasherOut(s.table, k)
    ensures var s' := s.(
                      table := Remove(s.table, k), disk := UnlinkIf(deleted, s.disk, UploadTemp(k)), poisoned := true);
            Inv(sha, s') && RunsTo(sha, s, [Panic(k, deleted)], s')
  {
    hide RunsTo, Inv;
    PanicKeeps(sha, s, k, deleted);
    OneEvent(sha, s, Panic(k, deleted));
  }

  lemma DiscardedState(sha: Bytes -> Bytes, s: State, k: UploadKey, deleted: bool)
    requires Inv(sha, s) && !s.poisoned && Lookup(s.table, k).Some?
    ensures var s' := s.(table := Remove(s.table, k), disk := UnlinkIf(deleted, s.disk, UploadTemp(k)));
            Inv(sha, s') && RunsTo(sha, s, [Discard(k, deleted)], s')
  {
    hide RunsTo, Inv;
    DiscardKeeps(sha, s, k, deleted);
    OneEvent(sha, s, Discard(k, deleted));
  }

  lemma AbortedState(sha: Bytes -> Bytes, s: State, k: UploadKey, deleted: bool)
    requires Inv(sha, s) && !s.poisoned && Lookup(s.table, k).Some?
    ensures var s' := s.(table := Remove(s.table, k), disk := UnlinkIf(deleted, s.disk, UploadTemp(k)));
            && Doomed(s', k)
            && (deleted ==> UploadTemp(k) !in s'.disk.names && (CanReturn(sha, s', k) <==> !NobodyWrites(s', k)))
  {
    hide CanReturn;
    assert KeyOk(sha, s, k);
    if deleted { AbortedFileReturnsExactlyWhen(sha, s, k); }
  }

  /** A file purge may delete: its name reads as a UUID that is not live in its repository. */
  predicate Stale(t: Table, parseUuid: string -> Option<string>, k: UploadKey)
  {
    parseUuid(k.uuid).Some? && Lookup(t, UploadKey(k.repository, parseUuid(k.uuid).value)).None?
  }

  lemma PurgeRuns(sha: Bytes -> Bytes, s: State, es: seq<Event>, s1: State, k: UploadKey)
    requires Inv(sha, s1) && RunsTo(sha, s, es, s1) && !s1.poisoned && Lookup(s1.table, k).None?
    ensures var s2 := s1.(disk := Unlink(s1.disk, UploadTemp(k)));
            Inv(sha, s2) && RunsTo(sha, s, es + [PurgeFile(k)], s2)
  {
    hide RunsTo, Inv;
    PurgeFileKeeps(sha, s1, k);
    RunsStep(sha, s, es, s1, PurgeFile(k));
  }

  /** The disk without the stale files of these repositories. */
  ghost function Purged(d: Disk, names: seq<Names.Name>, t: Table, parseUuid: string -> Option<string>): Disk
  {
    d.(names :=
         map l |
           l in d.names && !(l.UploadTemp? && l.upload.repository in names && Stale(t, parseUuid, l.upload))
         :: d.names[l])
  }

  /**
   Purge visits local repositories named after the folders below the storage root, and the registry's own
   such folders are "local" and "upstream". So after a successful purge exactly those files are gone that have
   a UUID for a name, no upload of which is live, in a repository that happens to be called one of these.
   */
  lemma PurgeLeavesExactly(
    d: Disk, folders: seq<string>, t: Table, parseUuid: string -> Option<string>, l: Loc)
    requires forall i :: 0 <= i < |folders| ==> folders[i] in {LOCAL, UPSTREAM}
    requires l in d.names
    ensures l !in Purged(d, Visited(folders), t, parseUuid).names
        <==> && l.UploadTemp? && l.upload.repository.namespace.None? && l.upload.repository.name in folders
             && parseUuid(l.upload.uuid).Some?
             && Lookup(t, UploadKey(l.upload.repository, parseUuid(l.upload.uuid).value)).None?
  {
    if l.UploadTemp? { PurgeReachesExactly(folders, l.upload.repository); }
  }

  /** And it needs those two to have a folder of uploads: a missing one ends it with an error. */
  lemma PurgeNeedsExactly(folders: seq<string>, uploadFolders: set<Names.Name>)
    requires forall i :: 0 <= i < |folders| ==> folders[i] in {LOCAL, UPSTREAM}
    ensures (forall name :: name in Visited(folders) ==> name in uploadFolders)
        <==> (forall folder :: folder in folders ==> Names.Name(folder, None) in uploadFolders)
  {
    forall name: Names.Name
      ensures name in Visited(folders) <==> name.namespace.None? && name.name in folders
    {
      PurgeReachesExactly(folders, name);
    }
    forall folder | folder in folders
      ensures Names.Name(folder, None) in Visited(folders)
    {}
  }

  /** A file of an upload that a restart forgot stays, after any number of purges. */
  lemma PurgeKeepsForgottenUpload(parseUuid: string -> Option<string>, uuid: string)
    requires parseUuid(uuid).Some?
    ensures var k := UploadKey(Names.Name("app", None), uuid);
            var d := Disk(map[UploadTemp(k) := 0], map[0 := []], 1);
            && Stale(map[], parseUuid, k)
            && Purged(d, Visited([LOCAL, UPSTREAM]), map[], parseUuid) == d
  {
    var k := UploadKey(Names.Name("app", None), uuid);
    var d := Disk(map[UploadTemp(k) := 0], map[0 := []], 1);
    assert |"app"| == 3 && |LOCAL| == 5 && |UPSTREAM| == 8;
    PurgeLeavesExactly(d, [LOCAL, UPSTREAM], map[], parseUuid, UploadTemp(k));
    assert Purged(d, Visited([LOCAL, UPSTREAM]), map[], parseUuid).names == d.names;
  }

  class FileBlobUploader {
    const files: FileSystem
    const sha: Bytes -> Bytes
    const parseUuid: string -> Option<string>
    var table: Table
    var poisoned: bool
    ghost var others: State  // the calls in flight; its disk, table and poison flag are not used

    /** The protocol state this object is in. */
    ghost function View(): State
      reads this, files
    {
      others.(disk := files.disk, table := table, poisoned := poisoned)
    }

    ghost predicate Valid()
      reads this, files
    {
      && Inv(sha, View())
      && !poisoned
      && (forall k :: Lookup(table, k).Some? ==> parseUuid(k.uuid) == Some(k.uuid))
      && (forall k :: k in others.acked ==> k.repository in files.uploadFolders)
    }

    constructor (files: FileSystem, sha: Bytes -> Bytes, parseUuid: string -> Option<string>)
      requires Sound(sha, files.disk)
      ensures Valid() && this.files == files && this.sha == sha && this.parseUuid == parseUuid
      ensures Initial(sha, View())
    {
      this.files := files;
      this.sha := sha;
      this.parseUuid := parseUuid;
      this.table := map[];
      this.poisoned := false;
      this.others := State(files.disk, map[], false, map[], map[], map[], map[], map[]);
    }

    method Start(repository: Names.Name, uuid: string) returns (r: Result<string, UploadError>)
      requires Valid() && parseUuid(uuid) == Some(uuid)
      requires Enabled(sha, View(), Event.Start(UploadKey(repository, uuid)))
      modifies this, files`uploadFolders
      ensures Valid()
      ensures r.Ok? ==> r.value == uuid && View() == Apply(sha, old(View()), Event.Start(UploadKey(repository, uuid)))
      ensures r.Err? ==> View() == old(View()) && r.error == FileSystemError
      ensures files.faultless ==> r.Ok?
    {
      var ok := files.CreateUploadFolder(repository);
      if !ok {
        return Err(FileSystemError);
      }
      StartKeeps(sha, View(), UploadKey(repository, uuid));
      table := Insert(table, UploadKey(repository, uuid), Upload(Some([]), 0));
      others := others.(acked := others.acked[UploadKey(repository, uuid) := []]);
      return Ok(uuid);
    }

    /** The first locked block of write_chunk. */
    method TakeHasher(ghost id: nat, k: UploadKey, expected: nat) returns (r: Result<Taken, UploadError>)
      requires Valid() && id !in others.writers && id !in others.late
      modifies this
      ensures Valid()
      ensures r.Ok? ==>
                && Lookup(old(table), k) == Some(Upload(Some(r.value.hasher), r.value.offset))
                && r.value.offset == expected
                && Lookup(table, k).Some? && OtherSessions(old(table), table, k) && others.acked == old(others.acked)
                && Enabled(sha, old(View()), Take(id, k, expected))
                && View() == Apply(sha, old(View()), Take(id, k, expected))
                && id in others.writers && others.writers[id] == Writer(k, r.value.hasher, r.value.offset, 0, None)
      ensures r.Err? ==> View() == old(View()) && (r.error in {UnknownUuid, HashFailure} || r.error.RangeMismatch?)
      ensures r == Err(UnknownUuid) <==> Lookup(old(table), k).None?
      // A mismatch reports the total of everything acknowledged, where the client has to go on.
      ensures r.Err? && r.error.RangeMismatch? <==>
                Lookup(old(table), k).Some? && Lookup(old(table), k).value.offset != expected
      ensures r.Err? && r.error.RangeMismatch? ==>
                r.error == RangeMismatch(|Concat(AckedBy(old(View()), k))|, expected)
      ensures r == Err(HashFailure) <==>
                && Lookup(old(table), k).Some? && Lookup(old(table), k).value.offset == expected
                && Lookup(old(table), k).value.hasher.None?
    {
      var found := Lookup(table, k);
      if found.None? {
        return Err(UnknownUuid);
      }
      var upload := found.value;
      if expected != upload.offset {
        OffsetIsTotal(sha, View(), k);
        return Err(RangeMismatch(upload.offset, expected));
      }
      if upload.hasher.None? {
        return Err(HashFailure);
      }
      TakeKeeps(sha, View(), id, k, expected);
      table := Insert(table, k, upload.(hasher := None));
      others := others.(writers := others.writers[id := Writer(k, upload.hasher.value, upload.offset, 0, None)]);
      return Ok(Taken(upload.hasher.value, upload.offset));
    }

    /** One turn of the loop: the hasher absorbs the portion, then a blocking task appends it. */
    method AppendPortion(ghost id: nat, k: UploadKey, portion: Bytes) returns (ok: bool, ghost outcome: Outcome)
      requires Valid() && id in others.writers && others.writers[id].key == k && others.writers[id].pending.None?
      requires portion != []
      modifies this`others, files`disk, files`failures
      ensures Valid() && (ok <==> outcome.Done?)
      ensures Enabled(sha, old(View()), Spawn(id, portion))
      ensures View() == AfterPortion(sha, old(View()), id, portion, outcome)
      ensures !ok ==> Doomed(View(), k)
      ensures files.faultless ==> ok
      ensures others.acked == old(others.acked) && Elsewhere(old(files.disk), files.disk, UploadTemp(k))
    {
      assert Enabled(sha, View(), Spawn(id, portion));
      hide Apply, Inv, AfterPortion, OutcomeOf, Enabled, Append, Doomed, Elsewhere, Lookup;
      WriterIsAcked(sha, View(), id);
      ghost var written;
      ok, written := files.AppendUpload(k, portion);
      outcome := OutcomeOf(ok, written);
      NotDone(ok, written);
      PortionKeeps(sha, old(View()), id, portion, ok, written);
      others := AfterPortion(sha, old(View()), id, portion, outcome);
      assert View() == others;
    }

    /** The call returns early, dropping the hasher. */
    ghost method Abandon(id: nat)
      requires Valid() && id in others.writers && others.writers[id].pending.None?
      modifies this`others
      ensures Valid() && View() == Apply(sha, old(View()), Leave(id))
      ensures others.acked == old(others.acked) && Doomed(View(), old(others.writers[id].key))
    {
      LeaveKeeps(sha, View(), id);
      FailedWriteDooms(sha, View(), id, Leave(id));
      others := Apply(sha, View(), Leave(id));
    }

    /** The second locked block of write_chunk. */
    method PutHasher(ghost id: nat, k: UploadKey, hasher: Bytes, offset: nat) returns (r: Result<nat, UploadError>)
      requires Valid() && id in others.writers && others.writers[id].pending.None?
      requires others.writers[id].key == k && others.writers[id].hasher == hasher
      requires offset == others.writers[id].start + others.writers[id].written
      modifies this`table, this`others
      ensures Valid()
      ensures Enabled(sha, old(View()), Put(id)) && View() == Apply(sha, old(View()), Put(id))
      ensures OtherSessions(old(table), table, k)
      ensures r == if Lookup(old(table), k).Some? then Ok(offset) else Err(HashFailure)
      ensures r.Ok? ==>
                && Lookup(table, k) == Some(Upload(Some(hasher), offset))
                && hasher == ReadOrEmpty(files.disk, UploadTemp(k))
                && AckedBy(View(), k) == AckedBy(old(View()), k) + [Body(old(others.writers[id]))]
    {
      hide Inv, Apply, Enabled, Body, ReadOrEmpty;
      PutState(sha, View(), id);
      var found := Lookup(table, k);
      others := Apply(sha, View(), Put(id));
      if found.None? {
        return Err(HashFailure);
      }
      table := Insert(table, k, Upload(Some(hasher), offset));
      return Ok(offset);
    }

    /** The part of write_chunk that runs without the mutex, with nothing in between. */
    method AppendBody(ghost id: nat, k: UploadKey, taken: Taken, source: Source)
      returns (r: Result<(Bytes, nat), UploadError>, ghost events: seq<Event>)
      requires Valid() && id in others.writers
      requires others.writers[id] == Writer(k, taken.hasher, taken.offset, 0, None)
      modifies this`others, files`disk, files`failures, source
      ensures Valid() && others.acked == old(others.acked)
      ensures RunsTo(sha, old(View()), events, View())
      ensures Elsewhere(old(files.disk), files.disk, UploadTemp(k))
      ensures r.Ok? ==>
                var body := old(source.rest);
                && r.value == (taken.hasher + body, |body|) && id in others.writers
                && others.writers[id] == Writer(k, taken.hasher + body, taken.offset, |body|, None)
      ensures r.Err? ==> r.error in {NetworkError, FileSystemError} && Doomed(View(), k)
      ensures (source.reliable ==> r != Err(NetworkError)) && (files.faultless ==> r != Err(FileSystemError))
    {
      hide Apply, Inv, RunsTo, AfterPortion, Doomed, ReadOrEmpty, Lookup;
      events := [];
      RunsNowhere(sha, View());
      var hasher := taken.hasher;
      var written := 0;
      ghost var body: Bytes := [];
      while true
        invariant Valid() && others.acked == old(others.acked)
        invariant RunsTo(sha, old(View()), events, View())
        invariant Elsewhere(old(files.disk), files.disk, UploadTemp(k))
        invariant old(source.rest) == body + source.rest && written == |body| && hasher == taken.hasher + body
        invariant id in others.writers && others.writers[id] == Writer(k, hasher, taken.offset, written, None)
        decreases |source.rest|
      {
        var portion := source.Read(65536);
        ghost var before := View();
        if portion.None? {
          Abandon(id);
          RunsStep(sha, old(View()), events, before, Leave(id));
          return Err(NetworkError), events + [Leave(id)];
        }
        if portion.value == [] {
          break;
        }
        ghost var outcome;
        var ok;
        ok, outcome := AppendPortion(id, k, portion.value);
        PortionRuns(sha, old(View()), events, before, id, portion.value, outcome);
        events := events + [Spawn(id, portion.value)] + [RunAppend(id, outcome)];
        if !ok {
          return Err(FileSystemError), events;
        }
        hasher := hasher + portion.value;
        written := written + |portion.value|;
        body := body + portion.value;
      }
      assert body == old(source.rest);
      return Ok((hasher, written)), events;
    }

    /** A write_chunk call that nothing interrupts. `id` names the call. */
    method WriteChunk(ghost id: nat, repository: Names.Name, uuid: string, expected: nat, source: Source)
      returns (r: Result<nat, UploadError>, ghost events: seq<Event>)
      requires Valid() && id !in others.writers && id !in others.late
      modifies this, files`disk, files`failures, source
      ensures Valid() && RunsTo(sha, old(View()), events, View())
      ensures var k := UploadKey(repository, uuid);
              r.Ok? ==>
                && HasherIn(old(table), k) && HasherIn(table, k)
                && r.value == expected + |old(source.rest)| == Lookup(table, k).value.offset
                && ReadOrEmpty(files.disk, UploadTemp(k))
                   == ReadOrEmpty(old(files.disk), UploadTemp(k)) + old(source.rest)
                && AckedBy(View(), k) == AckedBy(old(View()), k) + [old(source.rest)]
      ensures r.Err? && r.error in {NetworkError, FileSystemError} ==> Doomed(View(), UploadKey(repository, uuid))
      ensures r.Err? && r.error !in {NetworkError, FileSystemError} ==>
                View() == old(View()) && source.rest == old(source.rest)
      // Each error, exactly when; a mismatch reports the total of everything acknowledged.
      ensures var found := Lookup(old(table), UploadKey(repository, uuid));
              && (r == Err(UnknownUuid) <==> found.None?)
              && (r.Err? && r.error.RangeMismatch? <==> found.Some? && found.value.offset != expected)
              && (r.Err? && r.error.RangeMismatch? ==>
                   r.error == RangeMismatch(|Concat(AckedBy(old(View()), UploadKey(repository, uuid)))|, expected))
              && (r == Err(HashFailure) <==>
                   found.Some? && found.value.offset == expected && found.value.hasher.None?)
      ensures r.Err? && !r.error.RangeMismatch? ==>
                r.error in {UnknownUuid, HashFailure, NetworkError, FileSystemError}
      ensures (source.reliable ==> r != Err(NetworkError)) && (files.faultless ==> r != Err(FileSystemError))
      ensures OtherSessions(old(table), table, UploadKey(repository, uuid))
      ensures Elsewhere(old(files.disk), files.disk, UploadTemp(UploadKey(repository, uuid)))
    {
      hide Apply, Inv, RunsTo, Enabled;
      var k := UploadKey(repository, uuid);
      ghost var before := View();
      RunsNowhere(sha, before);
      var taken := TakeHasher(id, k, expected);
      if taken.Err? {
        return Err(taken.error), [];
      }
      HeldHasher(sha, before, k);
      RunsStep(sha, before, [], before, Take(id, k, expected));
      ghost var during := View();
      ghost var appending;
      var appended;
      appended, appending := AppendBody(id, k, taken.value, source);
      events := [] + [Take(id, k, expected)] + appending;
      RunsOn(sha, before, [] + [Take(id, k, expected)], during, appending, View());
      if appended.Err? {
        return Err(appended.error), events;
      }
      ghost var after := View();
      r := PutHasher(id, k, appended.value.0, taken.value.offset + appended.value.1);
      RunsStep(sha, before, events, after, Put(id));
      events := events + [Put(id)];
    }

    /** The commit of an upload that complete took out of the table. */
    method CommitUpload(k: UploadKey, blob: BlobKey, mediatype: Bytes) returns (ok: bool, ghost events: seq<Event>)
      requires Valid() && k in others.commits && others.commits[k] == blob
      modifies this`others, files`disk, files`failures
      ensures Valid() && RunsTo(sha, old(View()), events, View())
      ensures others == old(others).(commits := old(others).commits - {k})
      ensures ok ==>
                && UploadTemp(k) in old(files.disk).names && Stored(files.disk, UploadTemp(k), blob)
                && Read(files.disk, Content(blob)) == Concat(AckedBy(View(), k))
                && Read(files.disk, MediaType(blob)) == mediatype
      ensures !ok && files.deletesWork ==> Absent(files.disk, UploadTemp(k), blob)
      ensures files.faultless && UploadTemp(k) in old(files.disk).names ==> ok
      ensures Framed(old(files.disk), files.disk, UploadTemp(k), blob)
    {
      hide Apply, Framed, CommitEffect;
      ghost var before := View();
      SealedIsOver(sha, before, k);
      ghost var fate;
      ok, fate := CommitOnce(files, UploadTemp(k), blob, mediatype);
      hide Inv, Possible, RunsTo;
      UploadCommitRuns(sha, before, k, blob, fate);
      others := others.(commits := others.commits - {k});
      events := UploadCommitEvents(k, blob, fate);
      RunsKeep(sha, before, events, View());
    }

    /** An upload leaves the table uncommitted, which deletes its file; a panic leaves the mutex poisoned. */
    method DropUpload(k: UploadKey, panics: bool) returns (ghost deleted: bool)
      requires Valid() && Lookup(table, k).Some? && (panics ==> HasherOut(table, k))
      modifies this`table, this`poisoned, files`disk, files`failures
      ensures Inv(sha, View())
      ensures RunsTo(sha, old(View()), [if panics then Panic(k, deleted) else Discard(k, deleted)], View())
      ensures table == Remove(old(table), k) && poisoned == panics && (!panics ==> Valid())
      ensures files.disk == UnlinkIf(deleted, old(files.disk), UploadTemp(k)) && (files.deletesWork ==> deleted)
    {
      hide Inv, Apply, Enabled, RunsTo;
      ghost var before := View();
      table := Remove(table, k);
      poisoned := panics;
      var done := files.Delete(UploadTemp(k));
      deleted := done;
      if panics {
        PanickedState(sha, before, k, deleted);
      } else {
        DiscardedState(sha, before, k, deleted);
      }
    }

    /**
     The locked block of complete up to the commit: Ok leaves the upload sealed; an error has dropped it,
     which deletes its temporary file. Finding the hasher out panics with the lock held.
     */
    method SealUpload(k: UploadKey, claimed: Digests.Digest)
      returns (r: Result<BlobKey, UploadError>, ghost events: seq<Event>)
      requires Valid() && Digests.Valid(claimed)
      modifies this, files`disk, files`failures
      ensures RunsTo(sha, old(View()), events, View())
      ensures Inv(sha, View()) && others.acked == old(others.acked)
      ensures poisoned <==> HasherOut(old(table), k)
      ensures !poisoned ==> Valid()
      ensures poisoned <==> r == Err(Panicked)
      ensures r == Err(UnknownUuid) <==> Lookup(old(table), k).None?
      ensures r == Err(UnknownUuid) ==> View() == old(View())
      ensures r != Err(UnknownUuid) ==> Lookup(old(table), k).Some? && table == Remove(old(table), k)
      ensures r.Ok? ==>
                var blob := BlobKey(Local(k.repository), Blob, claimed);
                && r.value == blob && Enabled(sha, old(View()), Seal(k, blob))
                && View() == Apply(sha, old(View()), Seal(k, blob))
                && k in others.commits && others.commits[k] == blob && files.disk == old(files.disk)
                && Matches(sha, claimed, Concat(AckedBy(View(), k)))
                && (UploadTemp(k) in files.disk.names <==> Concat(AckedBy(View(), k)) != [])
      ensures r == Err(DigestMismatch) <==>
                HasherIn(old(table), k) && !Matches(sha, claimed, Concat(AckedBy(View(), k)))
      ensures files.faultless ==>
                (r.Ok? <==> HasherIn(old(table), k) && Matches(sha, claimed, Concat(AckedBy(View(), k))))
      ensures r.Err? && Lookup(old(table), k).Some? ==>
                files.disk == old(files.disk) || files.disk == Unlink(old(files.disk), UploadTemp(k))
      ensures r.Err? && Lookup(old(table), k).Some? && files.deletesWork ==>
                files.disk == Unlink(old(files.disk), UploadTemp(k))
      ensures r.Err? ==> r.error in {UnknownUuid, Panicked, DigestMismatch, FileSystemError}
    {
      hide Inv, Apply, Enabled, RunsTo, Concat, Digests.AsBytes;
      events := [];
      RunsNowhere(sha, View());
      var found := Lookup(table, k);
      if found.None? {
        return Err(UnknownUuid), [];
      }
      ghost var before := View();
      if found.value.hasher.None? {
        ghost var deleted := DropUpload(k, true);
        return Err(Panicked), [Panic(k, deleted)];
      }
      HeldHasher(sha, before, k);
      HeldIsAcked(sha, before, k);
      var matches := Digests.AsBytes(claimed) == sha(found.value.hasher.value);
      var created := false;
      if matches {
        created := files.CreateFolder();
      }
      if !created {
        ghost var deleted := DropUpload(k, false);
        return Err(if matches then FileSystemError else DigestMismatch), [Discard(k, deleted)];
      }
      var blob := BlobKey(Local(k.repository), Blob, claimed);
      SealedState(sha, before, k, blob);
      table := Remove(table, k);
      others := others.(commits := others.commits[k := blob]);
      return Ok(blob), [Seal(k, blob)];
    }

    method Complete(repository: Names.Name, uuid: string, claimed: Digests.Digest, mediatype: Bytes)
      returns (r: Result<BlobKey, UploadError>, ghost events: seq<Event>)
      requires Valid() && Digests.Valid(claimed)
      modifies this, files`disk, files`failures
      ensures RunsTo(sha, old(View()), events, View())
      ensures Inv(sha, View()) && others.acked == old(others.acked)
      ensures var k := UploadKey(repository, uuid);
              && (poisoned <==> HasherOut(old(table), k)) && (poisoned <==> r == Err(Panicked))
              && (!poisoned ==> Valid())
              && (r == Err(UnknownUuid) <==> Lookup(old(table), k).None?)
              && (r == Err(UnknownUuid) ==> View() == old(View()))
              && (r != Err(UnknownUuid) ==> Lookup(old(table), k).Some? && table == Remove(old(table), k))
      // Ok: the final file is what was acknowledged, and hashes to its name.
      ensures var k := UploadKey(repository, uuid);
              r.Ok? ==>
                && r.value == BlobKey(Local(repository), Blob, claimed)
                && Stored(files.disk, UploadTemp(k), r.value)
                && Read(files.disk, Content(r.value)) == Concat(AckedBy(View(), k))
                && Read(files.disk, MediaType(r.value)) == mediatype
                && Digests.AsBytes(claimed) == sha(Read(files.disk, Content(r.value)))
      ensures r == Err(DigestMismatch) <==>
                && HasherIn(old(table), UploadKey(repository, uuid))
                && Digests.AsBytes(claimed) != sha(Concat(AckedBy(View(), UploadKey(repository, uuid))))
      ensures r.Err? ==> r.error in {UnknownUuid, Panicked, DigestMismatch, FileSystemError}
      // An upload that was never given a byte has no file to rename, so it cannot complete; where nothing
      // fails, that, a wrong digest and a missing hasher are all that can go wrong.
      ensures var acked := Concat(AckedBy(View(), UploadKey(repository, uuid)));
              && (r.Ok? ==> acked != [])
              && (files.faultless ==>
                   (r.Ok? <==> && HasherIn(old(table), UploadKey(repository, uuid))
                               && Digests.AsBytes(claimed) == sha(acked) && acked != []))
      // Whatever failed, a session taken out with its hasher leaves no temporary file behind.
      ensures r.Err? && Lookup(old(table), UploadKey(repository, uuid)).Some? && files.deletesWork ==>
                UploadTemp(UploadKey(repository, uuid)) !in files.disk.names
      // Nothing else is touched.
      ensures Framed(old(files.disk), files.disk, UploadTemp(UploadKey(repository, uuid)),
                     BlobKey(Local(repository), Blob, claimed))
    {
      hide Apply, Inv, CleanedUpTo, RunsTo;
      var k := UploadKey(repository, uuid);
      var sealed;
      sealed, events := SealUpload(k, claimed);
      if sealed.Err? {
        return sealed, events;
      }
      ghost var during := View();
      ghost var committing;
      var ok;
      ok, committing := CommitUpload(k, sealed.value, mediatype);
      RunsOn(sha, old(View()), events, during, committing, View());
      return if ok then sealed else Err(FileSystemError), events + committing;
    }

    /** A client that is told the right offset and sends its chunk again: where nothing fails, that succeeds. */
    method WriteChunkAgain(ghost id: nat, repository: Names.Name, uuid: string, expected: nat, source: Source)
      returns (r: Result<nat, UploadError>)
      requires Valid() && id !in others.writers && id !in others.late && HasherIn(table, UploadKey(repository, uuid))
      requires files.faultless && source.reliable
      modifies this, files`disk, files`failures, source
      ensures var acked := AckedBy(old(View()), UploadKey(repository, uuid));
              && r == Ok(|Concat(acked)| + |old(source.rest)|)
              && AckedBy(View(), UploadKey(repository, uuid)) == acked + [old(source.rest)]
      ensures Valid()
    {
      hide Inv, RunsTo, Elsewhere, OtherSessions, Concat, Doomed, ReadOrEmpty;
      OffsetIsTotal(sha, View(), UploadKey(repository, uuid));
      ghost var events;
      r, events := WriteChunk(id, repository, uuid, expected, source);
      if r.Err? {
        r, events := WriteChunk(id, repository, uuid, r.error.expected, source);
      }
    }

    /** What it is all for: where nothing fails, any body that is not empty can be pushed under its digest. */
    method Push(ghost id: nat, repository: Names.Name, uuid: string, source: Source, claimed: Digests.Digest,
                mediatype: Bytes)
      returns (blob: BlobKey)
      requires Valid() && parseUuid(uuid) == Some(uuid) && id !in others.writers && id !in others.late
      requires Enabled(sha, View(), Event.Start(UploadKey(repository, uuid)))
      requires files.faultless && source.reliable && source.rest != []
      requires Digests.Valid(claimed) && Digests.AsBytes(claimed) == sha(source.rest)
      modifies this, files, source
      ensures Valid() && blob == BlobKey(Local(repository), Blob, claimed)
      ensures Content(blob) in files.disk.names && Read(files.disk, Content(blob)) == old(source.rest)
      ensures MediaType(blob) in files.disk.names && Read(files.disk, MediaType(blob)) == mediatype
    {
      hide Inv;
      var k := UploadKey(repository, uuid);
      var started := Start(repository, uuid);
      assert Lookup(table, k) == Some(Upload(Some([]), 0)) && AckedBy(View(), k) == [];
      hide Apply;
      ghost var events;
      var written, completed;
      written, events := WriteChunk(id, repository, uuid, 0, source);
      assert AckedBy(View(), k) == [old(source.rest)] && Concat(AckedBy(View(), k)) == old(source.rest);
      completed, events := Complete(repository, uuid, claimed, mediatype);
      return completed.value;
    }

    /** The deleted file can come back exactly when a chunk call or an append on the upload is still in flight. */
    method Abort(repository: Names.Name, uuid: string) returns (r: Result<(), UploadError>, ghost events: seq<Event>)
      requires Valid()
      modifies this`table, this`poisoned, files`disk, files`failures
      ensures Valid() && RunsTo(sha, old(View()), events, View())
      ensures var k := UploadKey(repository, uuid);
              && (r == Err(UnknownUuid) <==> Lookup(old(table), k).None?)
              && (r.Err? ==> r == Err(UnknownUuid) && View() == old(View()))
              && (r.Ok? ==> exists deleted :: events == [Discard(k, deleted)])
              && (r.Ok? ==> table == Remove(old(table), k) && Doomed(View(), k))
              && (r.Ok? && files.deletesWork ==>
                   && UploadTemp(k) !in files.disk.names
                   && (CanReturn(sha, View(), k) <==> !NobodyWrites(View(), k)))
    {
      hide Inv, RunsTo, CanReturn, NobodyWrites, Doomed;
      var k := UploadKey(repository, uuid);
      if Lookup(table, k).None? {
        RunsNowhere(sha, View());
        return Err(UnknownUuid), [];
      }
      ghost var before := View();
      ghost var deleted := DropUpload(k, false);
      AbortedState(sha, before, k, deleted);
      return Ok(()), [Discard(k, deleted)];
    }

    method Status(repository: Names.Name, uuid: string) returns (r: Result<nat, UploadError>)
      requires Valid()
      ensures var k := UploadKey(repository, uuid);
              if Lookup(table, k).Some? then r == Ok(|Concat(AckedBy(View(), k))|) else r == Err(UnknownUuid)
    {
      var k := UploadKey(repository, uuid);
      assert KeyOk(sha, View(), k);
      var found := Lookup(table, k);
      return if found.Some? then Ok(found.value.offset) else Err(UnknownUuid);
    }

    method PurgeRepository(repository: Names.Name) returns (ok: bool, ghost events: seq<Event>)
      requires Valid()
      modifies files`disk, files`failures
      ensures Valid() && RunsTo(sha, old(View()), events, View())
      ensures ok ==> repository in files.uploadFolders
      ensures files.faultless && repository in files.uploadFolders ==> ok
      ensures ok ==> files.disk == Purged(old(files.disk), [repository], table, parseUuid)
      // It stops at the first failure.
      ensures files.failures == old(files.failures) + if ok then 0 else 1
      ensures PartlyPurged(old(files.disk), files.disk, [repository])
    {
      hide Apply, Inv, RunsTo;
      events := [];
      RunsNowhere(sha, View());
      var listed := files.ListUploads(repository);
      if listed.None? {
        return false, [];
      }
      var i := 0;
      while i < |listed.value|
        invariant 0 <= i <= |listed.value| && Valid() && RunsTo(sha, old(View()), events, View())
        invariant files.failures == old(files.failures)
        invariant PartlyPurged(old(files.disk), files.disk, [repository])
        invariant forall j :: 0 <= j < i && Stale(table, parseUuid, UploadKey(repository, listed.value[j])) ==>
                    UploadTemp(UploadKey(repository, listed.value[j])) !in files.disk.names
      {
        var file := UploadKey(repository, listed.value[i]);
        var parsed := parseUuid(file.uuid);
        if parsed.Some? && Lookup(table, UploadKey(repository, parsed.value)).None? {
          ghost var before := View();
          StaleIsNotLive(file);
          var deleted := files.Delete(UploadTemp(file));
          if !deleted {
            return false, events;
          }
          PurgeRuns(sha, old(View()), events, before, file);
          events := events + [PurgeFile(file)];
        }
        i := i + 1;
      }
      AllStaleGone(old(files.disk), files.disk, repository, listed.value);
      return true, events;
    }

    /** Only stale files of these repositories are gone, and nothing else has changed. */
    ghost predicate PartlyPurged(d: Disk, d': Disk, names: seq<Names.Name>)
      reads this
    {
      && d' == d.(names := d'.names)
      && (forall l :: l in d'.names ==> l in d.names && d'.names[l] == d.names[l])
      && (forall l :: l in d.names && l !in d'.names ==>
           l.UploadTemp? && l.upload.repository in names && Stale(table, parseUuid, l.upload))
    }

    lemma AllStaleGone(d: Disk, d': Disk, repository: Names.Name, listed: seq<string>)
      requires PartlyPurged(d, d', [repository])
      requires forall k: UploadKey :: k.repository == repository && UploadTemp(k) in d.names ==> k.uuid in listed
      requires forall j :: 0 <= j < |listed| && Stale(table, parseUuid, UploadKey(repository, listed[j])) ==>
                 UploadTemp(UploadKey(repository, listed[j])) !in d'.names
      ensures d' == Purged(d, [repository], table, parseUuid)
    {
      assert d'.names == Purged(d, [repository], table, parseUuid).names;
    }

    lemma StaleIsNotLive(k: UploadKey)
      requires Valid() && Stale(table, parseUuid, k)
      ensures Lookup(table, k).None?
    {}

    /**
     `folders` is what the storage root lists; true means every repository these name was purged. Where nothing
     fails, that is so exactly when each has a folder of uploads.
     */
    method Purge(folders: seq<string>) returns (ok: bool, ghost events: seq<Event>)
      requires Valid()
      modifies files`disk, files`failures
      ensures Valid() && RunsTo(sha, old(View()), events, View())
      ensures ok ==> files.disk == Purged(old(files.disk), Visited(folders), table, parseUuid)
      ensures ok ==> forall name :: name in Visited(folders) ==> name in files.uploadFolders
      ensures files.faultless ==> (ok <==> forall name :: name in Visited(folders) ==> name in files.uploadFolders)
      ensures PartlyPurged(old(files.disk), files.disk, Visited(folders))
      ensures files.failures == old(files.failures) + if ok then 0 else 1
      ensures forall k :: Lookup(table, k).Some? ==>
                ReadOrEmpty(files.disk, UploadTemp(k)) == ReadOrEmpty(old(files.disk), UploadTemp(k))
    {
      hide Apply, Inv, Names.FromText, Purged, Stale, PartlyPurged, RunsTo;
      NothingPurged(files.disk);
      events := [];
      RunsNowhere(sha, View());
      ghost var visited: seq<Names.Name> := [];
      for i := 0 to |folders|
        invariant Valid() && RunsTo(sha, old(View()), events, View()) && visited == Visited(folders[..i])
        invariant files.disk == Purged(old(files.disk), visited, table, parseUuid)
        invariant files.failures == old(files.failures)
        invariant forall name :: name in visited ==> name in files.uploadFolders
      {
        VisitedSnoc(folders, i);
        var name := Names.FromText(folders[i]);
        if name.Ok? {
          ghost var before, purging := View(), [];
          var done;
          done, purging := PurgeRepository(name.value);
          RunsOn(sha, old(View()), events, before, purging, View());
          events := events + purging;
          if !done {
            PurgedPartly(old(files.disk), visited, name.value, before.disk, files.disk, Visited(folders));
            LiveFilesStay(old(files.disk), files.disk, Visited(folders));
            InVisited(visited, name.value, Visited(folders));
            return false, events;
          }
          PurgedTwice(old(files.disk), visited, name.value);
          visited := visited + [name.value];
        }
      }
      assert folders[..|folders|] == folders;
      AllPurged(old(files.disk), visited);
      LiveFilesStay(old(files.disk), files.disk, visited);
      return true, events;
    }

    lemma InVisited(done: seq<Names.Name>, name: Names.Name, names: seq<Names.Name>)
      requires done + [name] <= names
      ensures name in names
    {
      assert names[|done|] == name;
    }

    lemma AllPurged(d: Disk, names: seq<Names.Name>)
      ensures PartlyPurged(d, Purged(d, names, table, parseUuid), names)
    {}

    lemma PurgedPartly(
      d: Disk, done: seq<Names.Name>, name: Names.Name, d1: Disk, d2: Disk, names: seq<Names.Name>)
      requires d1 == Purged(d, done, table, parseUuid) && PartlyPurged(d1, d2, [name]) && done + [name] <= names
      ensures PartlyPurged(d, d2, names)
    {
      assert forall n :: n in done || n == name ==> n in done + [name];
      assert forall n :: n in done + [name] ==> n in names[..|done| + 1];
    }

    /** A live upload's file is not stale. */
    lemma LiveFilesStay(d: Disk, d': Disk, names: seq<Names.Name>)
      requires Valid() && PartlyPurged(d, d', names)
      ensures forall k :: Lookup(table, k).Some? ==> ReadOrEmpty(d', UploadTemp(k)) == ReadOrEmpty(d, UploadTemp(k))
    {
      forall k | Lookup(table, k).Some?
        ensures !Stale(table, parseUuid, k)
      {}
    }

    lemma NothingPurged(d: Disk)
      ensures Purged(d, [], table, parseUuid) == d
    {
      assert Purged(d, [], table, parseUuid).names == d.names;
    }

    lemma PurgedTwice(d: Disk, names: seq<Names.Name>, name: Names.Name)
      ensures Purged(Purged(d, names, table, parseUuid), [name], table, parseUuid)
           == Purged(d, names + [name], table, parseUuid)
    {
      assert Purged(Purged(d, names, table, parseUuid), [name], table, parseUuid).names
          == Purged(d, names + [name], table, parseUuid).names;
    }
  }
}
