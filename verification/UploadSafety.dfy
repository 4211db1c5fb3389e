/** What every step of every call keeps, and what follows for whole runs. */
module UploadSafety {
  import opened Basics
  import opened BlobPaths
  import opened Disks
  import opened Sessions
  import opened UploadProtocol

  /** Nothing that concerns upload `k` differs between the two states. */
  ghost predicate Same(s: State, s': State, k: UploadKey)
  {
    && Lookup(s.table, k) == Lookup(s'.table, k)
    && (k in s.acked <==> k in s'.acked) && AckedBy(s, k) == AckedBy(s', k)
    && (k in s.commits <==> k in s'.commits) && (k in s.commits ==> s.commits[k] == s'.commits[k])
    && (UploadTemp(k) in s.disk.names <==> UploadTemp(k) in s'.disk.names)
    && ReadOrEmpty(s.disk, UploadTemp(k)) == ReadOrEmpty(s'.disk, UploadTemp(k))
    && (forall i :: i in s'.writers && s'.writers[i].key == k ==> i in s.writers && s.writers[i] == s'.writers[i])
    && (forall i :: i in s'.late && s'.late[i].key == k ==> i in s.late && s.late[i] == s'.late[i])
  }

  lemma KeyFrame(sha: Bytes -> Bytes, s: State, s': State, k: UploadKey)
    requires KeyOk(sha, s, k) && Same(s, s', k)
    ensures KeyOk(sha, s', k)
  {
  }

  /** A step that concerns one upload only keeps what is known about the others. */
  lemma OthersKeep(sha: Bytes -> Bytes, s: State, s': State, changed: set<UploadKey>)
    requires forall k :: KeyOk(sha, s, k)
    requires forall k :: k in changed ==> KeyOk(sha, s', k)
    requires forall k :: k !in changed ==> Same(s, s', k)
    ensures forall k :: KeyOk(sha, s', k)
  {
    forall k
      ensures KeyOk(sha, s', k)
    {
      if k !in changed {
        KeyFrame(sha, s, s', k);
      }
    }
  }

  /** Deleting a file leaves every other file and every open save alone. */
  lemma UnlinkFrame(sha: Bytes -> Bytes, d: Disk, savers: map<BlobKey, Saver>, l: Loc)
    requires Sound(sha, d) && SaversOk(d, savers)
    ensures Sound(sha, Unlink(d, l)) && SaversOk(Unlink(d, l), savers)
    ensures forall m :: m != l ==>
              (m in Unlink(d, l).names <==> m in d.names) && ReadOrEmpty(Unlink(d, l), m) == ReadOrEmpty(d, m)
  {
    forall b | b in savers
      ensures SaverOk(Unlink(d, l), savers, b)
    {
      assert SaverOk(d, savers, b);
    }
  }

  lemma StartKey(sha: Bytes -> Bytes, s: State, k: UploadKey)
    requires Inv(sha, s) && Enabled(sha, s, Start(k))
    ensures KeyOk(sha, Apply(sha, s, Start(k)), k)
  {
    hide Sound, SaversOk, Matches;
    assert KeyOk(sha, s, k);
  }

  lemma StartKeeps(sha: Bytes -> Bytes, s: State, k: UploadKey)
    requires Inv(sha, s) && Enabled(sha, s, Start(k))
    ensures Inv(sha, Apply(sha, s, Start(k)))
  {
    hide KeyOk, Sound, SaversOk, Concat, Matches;
    StartKey(sha, s, k);
    OthersKeep(sha, s, Apply(sha, s, Start(k)), {k});
  }

  lemma TakeKey(sha: Bytes -> Bytes, s: State, id: nat, k: UploadKey, expected: nat)
    requires Inv(sha, s) && Enabled(sha, s, Take(id, k, expected))
    ensures KeyOk(sha, Apply(sha, s, Take(id, k, expected)), k)
  {
    hide Sound, SaversOk, Matches;
    assert KeyOk(sha, s, k);
  }

  lemma TakeKeeps(sha: Bytes -> Bytes, s: State, id: nat, k: UploadKey, expected: nat)
    requires Inv(sha, s) && Enabled(sha, s, Take(id, k, expected))
    ensures Inv(sha, Apply(sha, s, Take(id, k, expected)))
  {
    hide KeyOk, Sound, SaversOk, Concat, Matches;
    TakeKey(sha, s, id, k, expected);
    OthersKeep(sha, s, Apply(sha, s, Take(id, k, expected)), {k});
  }

  lemma SpawnKey(sha: Bytes -> Bytes, s: State, id: nat, chunk: Bytes)
    requires Inv(sha, s) && Enabled(sha, s, Spawn(id, chunk))
    ensures KeyOk(sha, Apply(sha, s, Spawn(id, chunk)), s.writers[id].key)
  {
    hide Sound, SaversOk, Matches;
    assert KeyOk(sha, s, s.writers[id].key) && WriterOk(s, id);
  }

  lemma SpawnKeeps(sha: Bytes -> Bytes, s: State, id: nat, chunk: Bytes)
    requires Inv(sha, s) && Enabled(sha, s, Spawn(id, chunk))
    ensures Inv(sha, Apply(sha, s, Spawn(id, chunk)))
  {
    hide KeyOk, Sound, SaversOk, Concat, Matches;
    SpawnKey(sha, s, id, chunk);
    OthersKeep(sha, s, Apply(sha, s, Spawn(id, chunk)), {s.writers[id].key});
  }

  /** Appending to one upload's temporary file leaves every other file and every open save alone. */
  lemma AppendFrame(sha: Bytes -> Bytes, s: State, k: UploadKey, chunk: Bytes, o: Outcome)
    requires Sound(sha, s.disk) && SaversOk(s.disk, s.savers)
    ensures var d := AppendEffect(s.disk, UploadTemp(k), chunk, o);
            && Sound(sha, d) && SaversOk(d, s.savers) && KeepsContent(s.disk, d, {})
            && (o.Done? ==>
                 && UploadTemp(k) in d.names
                 && Read(d, UploadTemp(k)) == ReadOrEmpty(s.disk, UploadTemp(k)) + chunk)
            && (forall l :: l != UploadTemp(k) ==>
                 (l in d.names <==> l in s.disk.names) && ReadOrEmpty(d, l) == ReadOrEmpty(s.disk, l))
  {
    AppendTempSound(sha, s.disk, UploadTemp(k), Reached(chunk, o));
  }

  /** The writer's step, knowing of the disk only that one temporary file changed, and how. */
  lemma WriterStep(sha: Bytes -> Bytes, s: State, s': State, id: nat)
    requires id in s.writers && s.writers[id].pending.Some? && forall k :: KeyOk(sha, s, k)
    requires s' == s.(disk := s'.disk, writers := s'.writers)
    requires var w := s.writers[id];
             && (forall l :: l != UploadTemp(w.key) ==>
                  (l in s'.disk.names <==> l in s.disk.names) && ReadOrEmpty(s'.disk, l) == ReadOrEmpty(s.disk, l))
             && (|| s'.writers == s.writers - {id}
                 || (&& s'.writers == s.writers[id := w.(written := w.written + |w.pending.value|, pending := None)]
                     && UploadTemp(w.key) in s'.disk.names
                     && Read(s'.disk, UploadTemp(w.key)) == ReadOrEmpty(s.disk, UploadTemp(w.key)) + w.pending.value))
    ensures forall k :: KeyOk(sha, s', k)
  {
    var k := s.writers[id].key;
    assert KeyOk(sha, s, k) && WriterOk(s, id);
    OthersKeep(sha, s, s', {k});
  }

  lemma RunAppendKeeps(sha: Bytes -> Bytes, s: State, id: nat, o: Outcome)
    requires Inv(sha, s) && Enabled(sha, s, RunAppend(id, o))
    ensures Inv(sha, Apply(sha, s, RunAppend(id, o)))
  {
    var w := s.writers[id];
    AppendFrame(sha, s, w.key, w.pending.value, o);
    WriterStep(sha, s, Apply(sha, s, RunAppend(id, o)), id);
  }

  lemma LeaveKey(sha: Bytes -> Bytes, s: State, id: nat)
    requires Inv(sha, s) && Enabled(sha, s, Leave(id))
    ensures KeyOk(sha, Apply(sha, s, Leave(id)), s.writers[id].key)
  {
    hide Sound, SaversOk, Matches;
    assert KeyOk(sha, s, s.writers[id].key) && WriterOk(s, id);
  }

  lemma LeaveKeeps(sha: Bytes -> Bytes, s: State, id: nat)
    requires Inv(sha, s) && Enabled(sha, s, Leave(id))
    ensures Inv(sha, Apply(sha, s, Leave(id)))
  {
    hide KeyOk, Sound, SaversOk, Concat, Matches;
    LeaveKey(sha, s, id);
    OthersKeep(sha, s, Apply(sha, s, Leave(id)), {s.writers[id].key});
  }

  lemma LateStep(sha: Bytes -> Bytes, s: State, s': State, id: nat)
    requires id in s.late && forall k :: KeyOk(sha, s, k)
    requires s' == s.(disk := s'.disk, late := s.late - {id})
    requires forall l :: l != UploadTemp(s.late[id].key) ==>
               (l in s'.disk.names <==> l in s.disk.names) && ReadOrEmpty(s'.disk, l) == ReadOrEmpty(s.disk, l)
    ensures forall k :: KeyOk(sha, s', k)
  {
    var k := s.late[id].key;
    assert KeyOk(sha, s, k) && LateOk(s, id);
    OthersKeep(sha, s, s', {k});
  }

  lemma RunLateKeeps(sha: Bytes -> Bytes, s: State, id: nat, o: Outcome)
    requires Inv(sha, s) && Enabled(sha, s, RunLate(id, o))
    ensures Inv(sha, Apply(sha, s, RunLate(id, o)))
  {
    AppendFrame(sha, s, s.late[id].key, s.late[id].chunk, o);
    LateStep(sha, s, Apply(sha, s, RunLate(id, o)), id);
  }

  /** Putting the hasher back: what it absorbed is the acknowledged bytes and this call's body. */
  lemma PutAbsorbed(sha: Bytes -> Bytes, s: State, id: nat)
    requires Inv(sha, s) && id in s.writers && s.writers[id].pending.None?
    requires Lookup(s.table, s.writers[id].key).Some?
    ensures var w := s.writers[id];
            && w.key in s.acked
            && Concat(s.acked[w.key] + [Body(w)]) == w.hasher == ReadOrEmpty(s.disk, UploadTemp(w.key))
            && w.start + w.written == |w.hasher| && w.start == |Concat(s.acked[w.key])|
  {
    var w := s.writers[id];
    assert KeyOk(sha, s, w.key) && WriterOk(s, id);
    ConcatSnoc(s.acked[w.key], Body(w));
    assert w.hasher == w.hasher[..w.start] + w.hasher[w.start..];
  }

  lemma PutKeyKeeps(sha: Bytes -> Bytes, s: State, id: nat)
    requires Inv(sha, s) && Enabled(sha, s, Put(id))
    ensures KeyOk(sha, Apply(sha, s, Put(id)), s.writers[id].key)
  {
    var k := s.writers[id].key;
    var s' := Apply(sha, s, Put(id));
    assert KeyOk(sha, s, k) && WriterOk(s, id);
    assert NobodyWrites(s', k);
    if Lookup(s.table, k).Some? {
      PutAbsorbed(sha, s, id);
      assert UploadOk(s', k);
    }
  }

  lemma PutOthers(s: State, s': State, id: nat, k: UploadKey)
    requires id in s.writers && k != s.writers[id].key
    requires s'.disk == s.disk && s'.late == s.late && s'.commits == s.commits && s'.writers == s.writers - {id}
    requires Lookup(s'.table, k) == Lookup(s.table, k)
    requires (k in s'.acked <==> k in s.acked) && AckedBy(s', k) == AckedBy(s, k)
    ensures Same(s, s', k)
  {}

  lemma PutKeeps(sha: Bytes -> Bytes, s: State, id: nat)
    requires Inv(sha, s) && Enabled(sha, s, Put(id))
    ensures Inv(sha, Apply(sha, s, Put(id)))
  {
    hide KeyOk, Sound, SaversOk, Same, Body, Concat, NoEmptyEntries, Matches;
    var s' := Apply(sha, s, Put(id));
    PutKeyKeeps(sha, s, id);
    forall k | k != s.writers[id].key
      ensures Same(s, s', k)
    {
      PutOthers(s, s', id, k);
    }
    OthersKeep(sha, s, s', {s.writers[id].key});
  }

  lemma SealKey(sha: Bytes -> Bytes, s: State, k: UploadKey, b: BlobKey)
    requires Inv(sha, s) && Enabled(sha, s, Seal(k, b))
    ensures KeyOk(sha, Apply(sha, s, Seal(k, b)), k)
  {
    hide Sound, SaversOk, Matches;
    assert KeyOk(sha, s, k);
  }

  lemma SealKeeps(sha: Bytes -> Bytes, s: State, k: UploadKey, b: BlobKey)
    requires Inv(sha, s) && Enabled(sha, s, Seal(k, b))
    ensures Inv(sha, Apply(sha, s, Seal(k, b)))
  {
    hide KeyOk, Sound, SaversOk, Concat, Matches;
    SealKey(sha, s, k, b);
    OthersKeep(sha, s, Apply(sha, s, Seal(k, b)), {k});
  }

  /** An upload leaves the table or the commits, or is not there, and its file may go: nothing else changes. */
  ghost predicate Drops(s: State, s': State, k: UploadKey, deleted: bool)
  {
    && s' == s.(table := s'.table, commits := s'.commits, poisoned := s'.poisoned,
                disk := UnlinkIf(deleted, s.disk, UploadTemp(k)))
    && Lookup(s'.table, k).None? && (k in s'.commits ==> k in s.commits && s'.commits[k] == s.commits[k])
    && (forall j :: j != k ==> Lookup(s'.table, j) == Lookup(s.table, j))
    && s'.commits - {k} == s.commits - {k}
  }

  lemma DropsOthers(s: State, s': State, k: UploadKey, deleted: bool, j: UploadKey)
    requires Drops(s, s', k, deleted) && j != k
    ensures Same(s, s', j)
  {
    assert j in s.commits <==> j in s.commits - {k};
    assert j in s'.commits <==> j in s'.commits - {k};
    assert j in s.commits ==> (s.commits - {k})[j] == (s'.commits - {k})[j];
  }

  lemma DropsKey(sha: Bytes -> Bytes, s: State, s': State, k: UploadKey, deleted: bool)
    requires Drops(s, s', k, deleted) && KeyOk(sha, s, k)
    ensures KeyOk(sha, s', k)
  {
    hide Concat, Matches, ReadOrEmpty;
  }

  lemma DropsKeeps(sha: Bytes -> Bytes, s: State, s': State, k: UploadKey, deleted: bool)
    requires Inv(sha, s) && Drops(s, s', k, deleted) && NoEmptyEntries(s'.table)
    ensures Inv(sha, s')
  {
    hide KeyOk, Sound, SaversOk, Same, NoEmptyEntries;
    assert s'.savers == s.savers && s'.writers == s.writers && s'.late == s.late;
    DropsKey(sha, s, s', k, deleted);
    forall j | j != k
      ensures Same(s, s', j)
    {
      DropsOthers(s, s', k, deleted, j);
    }
    if deleted {
      UnlinkFrame(sha, s.disk, s.savers, UploadTemp(k));
    }
    OthersKeep(sha, s, s', {k});
  }

  lemma DiscardKeeps(sha: Bytes -> Bytes, s: State, k: UploadKey, deleted: bool)
    requires Inv(sha, s) && Enabled(sha, s, Discard(k, deleted))
    ensures Inv(sha, Apply(sha, s, Discard(k, deleted)))
  {
    hide KeyOk, Sound, SaversOk;
    DropsKeeps(sha, s, Apply(sha, s, Discard(k, deleted)), k, deleted);
  }

  lemma PanicKeeps(sha: Bytes -> Bytes, s: State, k: UploadKey, deleted: bool)
    requires Inv(sha, s) && Enabled(sha, s, Panic(k, deleted))
    ensures Inv(sha, Apply(sha, s, Panic(k, deleted)))
  {
    hide KeyOk, Sound, SaversOk;
    DropsKeeps(sha, s, Apply(sha, s, Panic(k, deleted)), k, deleted);
  }

  lemma PublishKeeps(sha: Bytes -> Bytes, s: State, k: UploadKey)
    requires Inv(sha, s) && Enabled(sha, s, Publish(k))
    ensures Inv(sha, Apply(sha, s, Publish(k)))
  {
    assert KeyOk(sha, s, k);
    PublishSound(sha, s.disk, UploadTemp(k), s.commits[k]);
    OthersKeep(sha, s, Apply(sha, s, Publish(k)), {k});
  }

  lemma GiveUpKeeps(sha: Bytes -> Bytes, s: State, k: UploadKey, deleted: bool)
    requires Inv(sha, s) && Enabled(sha, s, GiveUp(k, deleted))
    ensures Inv(sha, Apply(sha, s, GiveUp(k, deleted)))
  {
    hide Sound, SaversOk;
    assert KeyOk(sha, s, k);
    DropsKeeps(sha, s, Apply(sha, s, GiveUp(k, deleted)), k, deleted);
  }

  lemma PurgeFileKeeps(sha: Bytes -> Bytes, s: State, k: UploadKey)
    requires Inv(sha, s) && Enabled(sha, s, PurgeFile(k))
    ensures Inv(sha, Apply(sha, s, PurgeFile(k)))
  {
    hide KeyOk, Sound, SaversOk;
    DropsKeeps(sha, s, Apply(sha, s, PurgeFile(k)), k, true);
  }

  /** A step that leaves uploads and their temporary files alone keeps all that is known about them. */
  lemma UploadsKeep(sha: Bytes -> Bytes, s: State, s': State)
    requires forall k :: KeyOk(sha, s, k)
    requires s' == s.(disk := s'.disk, savers := s'.savers)
    requires forall l: Loc :: l.UploadTemp? ==>
               (l in s'.disk.names <==> l in s.disk.names) && ReadOrEmpty(s'.disk, l) == ReadOrEmpty(s.disk, l)
    ensures forall k :: KeyOk(sha, s', k)
  {
    OthersKeep(sha, s, s', {});
  }

  lemma DeleteFileKeeps(sha: Bytes -> Bytes, s: State, l: Loc)
    requires Inv(sha, s) && Enabled(sha, s, DeleteFile(l))
    ensures Inv(sha, Apply(sha, s, DeleteFile(l)))
  {
    UnlinkFrame(sha, s.disk, s.savers, l);
    UploadsKeep(sha, s, Apply(sha, s, DeleteFile(l)));
  }

  lemma WriteMediaFrame(sha: Bytes -> Bytes, d: Disk, savers: map<BlobKey, Saver>, b: BlobKey, bytes: Bytes)
    requires Sound(sha, d) && SaversOk(d, savers)
    ensures var d' := Overwrite(d, MediaType(b), bytes);
            && Sound(sha, d') && SaversOk(d', savers)
            && (forall l: Loc :: l.UploadTemp? ==>
                 (l in d'.names <==> l in d.names) && ReadOrEmpty(d', l) == ReadOrEmpty(d, l))
  {
    OverwriteMediaSound(sha, d, b, bytes);
    forall c | c in savers
      ensures SaverOk(Overwrite(d, MediaType(b), bytes), savers, c)
    {
      assert SaverOk(d, savers, c);
    }
  }

  lemma WriteMediaKeeps(sha: Bytes -> Bytes, s: State, b: BlobKey, bytes: Bytes)
    requires Inv(sha, s) && Enabled(sha, s, WriteMedia(b, bytes))
    ensures Inv(sha, Apply(sha, s, WriteMedia(b, bytes)))
  {
    hide KeyOk, Sound, SaversOk, ReadOrEmpty;
    WriteMediaFrame(sha, s.disk, s.savers, b, bytes);
    UploadsKeep(sha, s, Apply(sha, s, WriteMedia(b, bytes)));
  }

  lemma LinkContentKeeps(sha: Bytes -> Bytes, s: State, from: BlobKey, to: BlobKey)
    requires Inv(sha, s) && Enabled(sha, s, LinkContent(from, to))
    ensures Inv(sha, Apply(sha, s, LinkContent(from, to)))
  {
    hide KeyOk, Matches;
    LinkContentSound(sha, s.disk, from, to);
    UploadsKeep(sha, s, Apply(sha, s, LinkContent(from, to)));
  }

  lemma LinkMediaKeeps(sha: Bytes -> Bytes, s: State, from: BlobKey, to: BlobKey)
    requires Inv(sha, s) && Enabled(sha, s, LinkMedia(from, to))
    ensures Inv(sha, Apply(sha, s, LinkMedia(from, to)))
  {
    hide KeyOk, Matches;
    LinkMediaSound(sha, s.disk, from, to);
    UploadsKeep(sha, s, Apply(sha, s, LinkMedia(from, to)));
  }

  lemma SaveOpenFrame(sha: Bytes -> Bytes, d: Disk, savers: map<BlobKey, Saver>, b: BlobKey)
    requires Sound(sha, d) && SaversOk(d, savers) && b !in savers && SaveTemp(b) !in d.names
    ensures var d' := Touch(d, SaveTemp(b));
            && Sound(sha, d') && SaversOk(d', savers[b := Saver(d'.names[SaveTemp(b)], [], true)])
            && (forall l :: l != SaveTemp(b) ==>
                 (l in d'.names <==> l in d.names) && ReadOrEmpty(d', l) == ReadOrEmpty(d, l))
  {
    var d' := Touch(d, SaveTemp(b));
    var savers' := savers[b := Saver(d'.names[SaveTemp(b)], [], true)];
    forall c | c in savers'
      ensures SaverOk(d', savers', c)
    {
      assert c != b ==> SaverOk(d, savers, c);
    }
  }

  lemma SavePublishFrame(sha: Bytes -> Bytes, d: Disk, savers: map<BlobKey, Saver>, b: BlobKey)
    requires Sound(sha, d) && SaversOk(d, savers) && b in savers && savers[b].intact
    requires SaveTemp(b) in d.names && Matches(sha, b.digest, savers[b].hasher)
    ensures var d' := Rename(d, SaveTemp(b), Content(b));
            && Sound(sha, d') && SaversOk(d', savers - {b}) && KeepsContent(d, d', {Content(b)})
            && (forall l: Loc :: l.UploadTemp? ==>
                 (l in d'.names <==> l in d.names) && ReadOrEmpty(d', l) == ReadOrEmpty(d, l))
  {
    assert SaverOk(d, savers, b);
    PublishSound(sha, d, SaveTemp(b), b);
    forall c | c in savers - {b}
      ensures SaverOk(Rename(d, SaveTemp(b), Content(b)), savers - {b}, c)
    {
      assert SaverOk(d, savers, c);
    }
  }

  lemma SaveOpenKeeps(sha: Bytes -> Bytes, s: State, b: BlobKey)
    requires Inv(sha, s) && Enabled(sha, s, SaveOpen(b))
    ensures Inv(sha, Apply(sha, s, SaveOpen(b)))
  {
    SaveOpenFrame(sha, s.disk, s.savers, b);
    UploadsKeep(sha, s, Apply(sha, s, SaveOpen(b)));
  }

  lemma SaveWriteFrame(sha: Bytes -> Bytes, d: Disk, savers: map<BlobKey, Saver>, b: BlobKey, bytes: Bytes, v: Saver)
    requires Sound(sha, d) && SaversOk(d, savers) && b in savers && v.inode == savers[b].inode
    requires v.intact ==> savers[b].intact && v.hasher == savers[b].hasher + bytes
    ensures var d' := WriteInode(d, v.inode, bytes);
            && Sound(sha, d') && SaversOk(d', savers[b := v])
            && (forall l: Loc :: l.UploadTemp? ==>
                 (l in d'.names <==> l in d.names) && ReadOrEmpty(d', l) == ReadOrEmpty(d, l))
  {
    var d' := WriteInode(d, v.inode, bytes);
    assert SaverOk(d, savers, b);
    WriteHandleSound(sha, d, v.inode, SaveTemp(b), bytes);
    forall c | c in savers
      ensures SaverOk(d', savers[b := v], c)
    {
      assert SaverOk(d, savers, c);
    }
  }

  lemma SaveWriteKeeps(sha: Bytes -> Bytes, s: State, b: BlobKey, chunk: Bytes, o: Outcome)
    requires Inv(sha, s) && Enabled(sha, s, SaveWrite(b, chunk, o))
    ensures Inv(sha, Apply(sha, s, SaveWrite(b, chunk, o)))
  {
    hide KeyOk, Sound, ReadOrEmpty;
    var s' := Apply(sha, s, SaveWrite(b, chunk, o));
    if !o.NotOpened? {
      hide SaverOk;
      SaveWriteFrame(sha, s.disk, s.savers, b, Reached(chunk, o), s'.savers[b]);
    }
    UploadsKeep(sha, s, s');
  }

  lemma SavePublishKeeps(sha: Bytes -> Bytes, s: State, b: BlobKey)
    requires Inv(sha, s) && Enabled(sha, s, SavePublish(b))
    ensures Inv(sha, Apply(sha, s, SavePublish(b)))
  {
    SavePublishFrame(sha, s.disk, s.savers, b);
    UploadsKeep(sha, s, Apply(sha, s, SavePublish(b)));
  }

  lemma SaveEndKeeps(sha: Bytes -> Bytes, s: State, b: BlobKey, deleted: bool)
    requires Inv(sha, s) && Enabled(sha, s, SaveEnd(b, deleted))
    ensures Inv(sha, Apply(sha, s, SaveEnd(b, deleted)))
  {
    UnlinkFrame(sha, s.disk, s.savers, SaveTemp(b));
    UploadsKeep(sha, s, Apply(sha, s, SaveEnd(b, deleted)));
  }
}
