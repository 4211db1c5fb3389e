/** What stays until it is deleted, what goes for good, and what comes back. */
module UploadLifetimes {
  import opened Basics
  import opened BlobPaths
  import opened Disks
  import opened Repositories
  import opened Sessions
  import opened UploadProtocol
  import opened UploadSafety
  import opened UploadTheorems

  lemma PublishStores(sha: Bytes -> Bytes, s: State, e: Event, b: BlobKey)
    requires Inv(sha, s) && Enabled(sha, s, e) && Content(b) in Rewritten(s, e) && !e.DeleteFile?
    ensures Content(b) in Apply(sha, s, e).disk.names
  {
    hide Inv, SaversOk, KeyOk;
  }

  lemma ContentStays(sha: Bytes -> Bytes, s: State, e: Event, b: BlobKey)
    requires Inv(sha, s) && Enabled(sha, s, e) && Content(b) in s.disk.names && e != DeleteFile(Content(b))
    ensures Content(b) in Apply(sha, s, e).disk.names
  {
    hide Inv, Enabled, Apply;
    if Content(b) in Rewritten(s, e) {
      PublishStores(sha, s, e, b);
    } else {
      hide Rewritten;
      StepKeepsContent(sha, s, e);
    }
  }

  /**
   A stored blob stays until it is deleted, through saves, uploads and mounts onto it: it keeps matching its
   digest, so its bytes change only to others of the same hash.
   */
  lemma {:induction false} StoredUntilDeleted(sha: Bytes -> Bytes, s: State, es: seq<Event>, b: BlobKey)
    requires Inv(sha, s) && ValidRun(sha, s, es) && Content(b) in s.disk.names && DeleteFile(Content(b)) !in es
    ensures var d := Run(sha, s, es).disk;
            && Content(b) in d.names && Matches(sha, b.digest, Read(d, Content(b)))
            && sha(Read(d, Content(b))) == sha(Read(s.disk, Content(b)))
    decreases |es|
  {
    hide Enabled, Apply;
    RunKeeps(sha, s, es);
    if es != [] {
      hide Inv;
      assert es == Front(es) + [Last(es)];
      StoredUntilDeleted(sha, s, Front(es), b);
      RunKeeps(sha, s, Front(es));
      ContentStays(sha, Run(sha, s, Front(es)), Last(es), b);
    }
  }

  /** An upload that is over and whose temporary file is gone. */
  ghost predicate Gone(s: State, k: UploadKey)
  {
    k in s.acked && Lookup(s.table, k).None? && k !in s.commits && UploadTemp(k) !in s.disk.names
  }

  lemma OverStays(sha: Bytes -> Bytes, s: State, e: Event, k: UploadKey)
    requires k in s.acked && Lookup(s.table, k).None? && Enabled(sha, s, e)
    ensures Lookup(Apply(sha, s, e).table, k).None?
  {
    if Locks(e) {
      hide Matches, Body, NoEmptyEntries, UnlinkIf, Unlink, Insert, Remove;
      assert e.Start? ==> e.key != k;
    } else {
      OnlyLocksChangeTheTable(sha, s, e);
    }
  }

  lemma NobodyStartsWriting(sha: Bytes -> Bytes, s: State, e: Event, k: UploadKey)
    requires NobodyWrites(s, k) && Lookup(s.table, k).None? && Enabled(sha, s, e)
    ensures NobodyWrites(Apply(sha, s, e), k)
  {
    if Writing(e) {
      hide Matches, Body, Lookup, Insert, AppendEffect;
    } else {
      OthersLeaveWriters(sha, s, e);
    }
  }

  lemma FileStaysGone(sha: Bytes -> Bytes, s: State, e: Event, k: UploadKey)
    requires NobodyWrites(s, k) && UploadTemp(k) !in s.disk.names && Enabled(sha, s, e)
    ensures UploadTemp(k) !in Apply(sha, s, e).disk.names
  {
    if Moves(e) {
      MovesOpenNoTemp(sha, s, e, UploadTemp(k));
    } else {
      hide Matches, Body, Lookup, Insert, Remove, NobodyWrites, Held;
    }
  }

  lemma GoneStep(sha: Bytes -> Bytes, s: State, e: Event, k: UploadKey)
    requires Gone(s, k) && NobodyWrites(s, k) && Enabled(sha, s, e)
    ensures Gone(Apply(sha, s, e), k) && NobodyWrites(Apply(sha, s, e), k)
  {
    DoomedStep(sha, s, e, k);
    hide Enabled, Apply, NobodyWrites, Lookup;
    OverStays(sha, s, e, k);
    NobodyStartsWriting(sha, s, e, k);
    FileStaysGone(sha, s, e, k);
  }

  lemma {:induction false} GoneForGood(sha: Bytes -> Bytes, s: State, es: seq<Event>, k: UploadKey)
    requires Gone(s, k) && NobodyWrites(s, k) && ValidRun(sha, s, es)
    ensures Gone(Run(sha, s, es), k) && NobodyWrites(Run(sha, s, es), k)
    decreases |es|
  {
    hide Gone, NobodyWrites, Enabled, Apply;
    if es != [] {
      GoneForGood(sha, s, Front(es), k);
      GoneStep(sha, Run(sha, s, Front(es)), Last(es), k);
    }
  }

  /** Some run from here ends with the upload's temporary file on disk. */
  ghost predicate CanReturn(sha: Bytes -> Bytes, s: State, k: UploadKey)
  {
    exists es: seq<Event> :: ValidRun(sha, s, es) && UploadTemp(k) in Run(sha, s, es).disk.names
  }

  lemma Witness(sha: Bytes -> Bytes, s: State, es: seq<Event>, s': State, k: UploadKey)
    requires RunsTo(sha, s, es, s') && UploadTemp(k) in s'.disk.names
    ensures CanReturn(sha, s, k)
  {}

  lemma AppendBringsBack(sha: Bytes -> Bytes, s: State, id: nat)
    requires id in s.writers && s.writers[id].pending.Some?
    ensures Enabled(sha, s, RunAppend(id, Done))
    ensures UploadTemp(s.writers[id].key) in Apply(sha, s, RunAppend(id, Done)).disk.names
  {}

  lemma LateBringsBack(sha: Bytes -> Bytes, s: State, id: nat)
    requires id in s.late
    ensures Enabled(sha, s, RunLate(id, Done))
    ensures UploadTemp(s.late[id].key) in Apply(sha, s, RunLate(id, Done)).disk.names
  {}

  lemma SpawnQueues(sha: Bytes -> Bytes, s: State, id: nat, chunk: Bytes)
    requires id in s.writers && s.writers[id].pending.None? && chunk != []
    ensures var s' := Apply(sha, s, Spawn(id, chunk));
            && Enabled(sha, s, Spawn(id, chunk)) && id in s'.writers && s'.writers[id].pending.Some?
            && s'.writers[id].key == s.writers[id].key
  {}

  /** Dropping a call does not stop the append it has queued, which may then end in any way. */
  lemma QueuedAppendOutlivesItsCall(sha: Bytes -> Bytes, s: State, id: nat, o: Outcome)
    requires id in s.writers && s.writers[id].pending.Some?
    ensures var w := s.writers[id];
            var left := Apply(sha, s, Leave(id));
            && Enabled(sha, left, RunLate(id, o)) && id !in left.writers
            && Apply(sha, left, RunLate(id, o)).disk
               == AppendEffect(s.disk, UploadTemp(w.key), w.pending.value, o)
  {}

  /** A call or a queued append that is still there can bring the file back. */
  lemma WriterBringsBack(sha: Bytes -> Bytes, s: State, k: UploadKey)
    requires !NobodyWrites(s, k)
    ensures CanReturn(sha, s, k)
  {
    hide Enabled, Apply, CanReturn;
    RunsNowhere(sha, s);
    if id :| id in s.late && s.late[id].key == k {
      LateBringsBack(sha, s, id);
      RunsStep(sha, s, [], s, RunLate(id, Done));
      Witness(sha, s, [] + [RunLate(id, Done)], Apply(sha, s, RunLate(id, Done)), k);
    } else {
      var id :| id in s.writers && s.writers[id].key == k;
      var es, s1 := [], s;
      if s.writers[id].pending.None? {
        SpawnQueues(sha, s, id, [0]);
        RunsStep(sha, s, [], s, Spawn(id, [0]));
        es, s1 := [] + [Spawn(id, [0])], Apply(sha, s, Spawn(id, [0]));
      }
      AppendBringsBack(sha, s1, id);
      RunsStep(sha, s, es, s1, RunAppend(id, Done));
      Witness(sha, s, es + [RunAppend(id, Done)], Apply(sha, s1, RunAppend(id, Done)), k);
    }
  }

  /** The temporary file of an upload that is over can come back exactly when something still writes to it. */
  lemma FileReturnsExactlyWhen(sha: Bytes -> Bytes, s: State, k: UploadKey)
    requires Gone(s, k)
    ensures CanReturn(sha, s, k) <==> !NobodyWrites(s, k)
  {
    hide NobodyWrites;
    if NobodyWrites(s, k) {
      forall es | ValidRun(sha, s, es)
        ensures UploadTemp(k) !in Run(sha, s, es).disk.names
      {
        GoneForGood(sha, s, es, k);
      }
    } else {
      WriterBringsBack(sha, s, k);
    }
  }

  /** So an abort that deletes the file is rid of it for good exactly when no call and no append is in flight. */
  lemma AbortedFileReturnsExactlyWhen(sha: Bytes -> Bytes, s: State, k: UploadKey)
    requires Inv(sha, s) && Enabled(sha, s, Discard(k, true))
    ensures CanReturn(sha, Apply(sha, s, Discard(k, true)), k) <==> !NobodyWrites(s, k)
    ensures HasherIn(s.table, k) ==> NobodyWrites(s, k)
  {
    var s' := Apply(sha, s, Discard(k, true));
    assert KeyOk(sha, s, k);
    assert Gone(s', k);
    hide Inv, Apply, CanReturn;
    FileReturnsExactlyWhen(sha, s', k);
  }

  /** A registry with an empty disk and no call in flight. */
  const EMPTY: State := State(Disk(map[], map[], 0), map[], false, map[], map[], map[], map[], map[])

  /** A new upload whose hasher a call has just taken. */
  ghost predicate JustTaken(s: State, k: UploadKey)
  {
    !s.poisoned && HasherOut(s.table, k) && 0 in s.writers && s.writers[0] == Writer(k, [], 0, 0, None)
  }

  lemma StartThenTake(sha: Bytes -> Bytes, k: UploadKey) returns (s: State)
    ensures RunsTo(sha, EMPTY, [Start(k), Take(0, k, 0)], s) && JustTaken(s, k)
  {
    hide Insert, RunsTo;
    var s1 := Apply(sha, EMPTY, Start(k));
    s := Apply(sha, s1, Take(0, k, 0));
    RunsNowhere(sha, EMPTY);
    RunsStep(sha, EMPTY, [], EMPTY, Start(k));
    RunsStep(sha, EMPTY, [] + [Start(k)], s1, Take(0, k, 0));
    assert [] + [Start(k)] + [Take(0, k, 0)] == [Start(k), Take(0, k, 0)];
  }

  lemma LeaveThenPanic(sha: Bytes -> Bytes, s: State, k: UploadKey)
    requires JustTaken(s, k)
    ensures var s1 := Apply(sha, s, Leave(0));
            Enabled(sha, s, Leave(0)) && Enabled(sha, s1, Panic(k, true)) && Apply(sha, s1, Panic(k, true)).poisoned
  {}

  /** One chunk call that fails and one complete poison the mutex. */
  lemma FailedWritePoisons(sha: Bytes -> Bytes, k: UploadKey)
    ensures var es := [Start(k), Take(0, k, 0), Leave(0), Panic(k, true)];
            Initial(sha, EMPTY) && ValidRun(sha, EMPTY, es) && Run(sha, EMPTY, es).poisoned
  {
    var s := StartThenTake(sha, k);
    LeaveThenPanic(sha, s, k);
    assert Initial(sha, EMPTY);
    hide Enabled, Apply, JustTaken, Initial;
    var es := [Start(k), Take(0, k, 0)];
    var s1 := Apply(sha, s, Leave(0));
    RunsStep(sha, EMPTY, es, s, Leave(0));
    RunsStep(sha, EMPTY, es + [Leave(0)], s1, Panic(k, true));
    assert es + [Leave(0)] + [Panic(k, true)] == [Start(k), Take(0, k, 0), Leave(0), Panic(k, true)];
  }

  lemma DiscardUnderAppend(sha: Bytes -> Bytes, s: State, k: UploadKey)
    requires !s.poisoned && HasherOut(s.table, k) && 0 in s.writers && s.writers[0].key == k
    requires s.writers[0].pending.Some?
    ensures var s1 := Apply(sha, s, Discard(k, true));
            && Enabled(sha, s, Discard(k, true)) && Enabled(sha, s1, RunAppend(0, Done))
            && Lookup(Apply(sha, s1, RunAppend(0, Done)).table, k).None?
            && UploadTemp(k) in Apply(sha, s1, RunAppend(0, Done)).disk.names
  {}

  lemma SpawnAfterTake(sha: Bytes -> Bytes, s: State, k: UploadKey)
    requires JustTaken(s, k)
    ensures var s' := Apply(sha, s, Spawn(0, [1]));
            && Enabled(sha, s, Spawn(0, [1])) && !s'.poisoned && HasherOut(s'.table, k)
            && 0 in s'.writers && s'.writers[0].key == k && s'.writers[0].pending.Some?
  {}

  /** An abort while an append is queued: the append creates the file again. */
  lemma AbortedFileComesBack(sha: Bytes -> Bytes, k: UploadKey)
    ensures var es := [Start(k), Take(0, k, 0), Spawn(0, [1]), Discard(k, true), RunAppend(0, Done)];
            && Initial(sha, EMPTY) && ValidRun(sha, EMPTY, es)
            && Lookup(Run(sha, EMPTY, es).table, k).None? && UploadTemp(k) in Run(sha, EMPTY, es).disk.names
  {
    var s := StartThenTake(sha, k);
    SpawnAfterTake(sha, s, k);
    var s1 := Apply(sha, s, Spawn(0, [1]));
    DiscardUnderAppend(sha, s1, k);
    assert Initial(sha, EMPTY);
    hide Enabled, Apply, JustTaken, Initial, Lookup;
    var es := [Start(k), Take(0, k, 0)];
    var s2 := Apply(sha, s1, Discard(k, true));
    RunsStep(sha, EMPTY, es, s, Spawn(0, [1]));
    RunsStep(sha, EMPTY, es + [Spawn(0, [1])], s1, Discard(k, true));
    RunsStep(sha, EMPTY, es + [Spawn(0, [1])] + [Discard(k, true)], s2, RunAppend(0, Done));
    assert es + [Spawn(0, [1])] + [Discard(k, true)] + [RunAppend(0, Done)]
        == [Start(k), Take(0, k, 0), Spawn(0, [1]), Discard(k, true), RunAppend(0, Done)];
  }
}
