/** What holds in every state the registry can reach, and over whole runs. */
module UploadTheorems {
  import opened Basics
  import opened BlobPaths
  import opened Disks
  import opened Repositories
  import opened Sessions
  import opened UploadProtocol
  import opened UploadSafety
  import Digests

  /** A process just started: any sound disk, stray files included, and no call in flight. */
  ghost predicate Initial(sha: Bytes -> Bytes, s: State)
  {
    && Sound(sha, s.disk)
    && s == State(s.disk, map[], false, map[], map[], map[], map[], map[])
  }

  /** Each event can happen after those before it. */
  ghost predicate ValidRun(sha: Bytes -> Bytes, s: State, es: seq<Event>)
    decreases |es|, 0
  {
    es == [] || (ValidRun(sha, s, Front(es)) && Enabled(sha, Run(sha, s, Front(es)), Last(es)))
  }

  ghost function Run(sha: Bytes -> Bytes, s: State, es: seq<Event>): State
    requires ValidRun(sha, s, es)
    decreases |es|, 1
  {
    if es == [] then s else Apply(sha, Run(sha, s, Front(es)), Last(es))
  }

  lemma RunSnoc(sha: Bytes -> Bytes, s: State, es: seq<Event>, e: Event)
    requires ValidRun(sha, s, es)
    ensures ValidRun(sha, s, es + [e]) <==> Enabled(sha, Run(sha, s, es), e)
    ensures Enabled(sha, Run(sha, s, es), e) ==> Run(sha, s, es + [e]) == Apply(sha, Run(sha, s, es), e)
  {
    assert Front(es + [e]) == es;
  }

  /** The events lead from `s` to `s'`. */
  ghost predicate RunsTo(sha: Bytes -> Bytes, s: State, es: seq<Event>, s': State)
  {
    ValidRun(sha, s, es) && Run(sha, s, es) == s'
  }

  lemma RunsNowhere(sha: Bytes -> Bytes, s: State)
    ensures RunsTo(sha, s, [], s)
  {}

  lemma RunsStep(sha: Bytes -> Bytes, s: State, es: seq<Event>, s1: State, e: Event)
    requires RunsTo(sha, s, es, s1) && Enabled(sha, s1, e)
    ensures RunsTo(sha, s, es + [e], Apply(sha, s1, e))
  {
    RunSnoc(sha, s, es, e);
  }

  /** One run after another is a run. */
  lemma {:induction false} RunsOn(
    sha: Bytes -> Bytes, s: State, es: seq<Event>, s1: State, later: seq<Event>, s2: State)
    requires RunsTo(sha, s, es, s1) && RunsTo(sha, s1, later, s2)
    ensures RunsTo(sha, s, es + later, s2)
    decreases |later|
  {
    hide Enabled, Apply;
    if later == [] {
      assert es + later == es;
    } else {
      RunsOn(sha, s, es, s1, Front(later), Run(sha, s1, Front(later)));
      RunsStep(sha, s, es + Front(later), Run(sha, s1, Front(later)), Last(later));
      assert es + later == es + Front(later) + [Last(later)];
    }
  }

  lemma InitialInv(sha: Bytes -> Bytes, s: State)
    requires Initial(sha, s)
    ensures Inv(sha, s)
  {}

  lemma StepKeeps(sha: Bytes -> Bytes, s: State, e: Event)
    requires Inv(sha, s) && Enabled(sha, s, e)
    ensures Inv(sha, Apply(sha, s, e))
  {
    hide Inv, Enabled, Apply;
    match e
    case Start(k) => StartKeeps(sha, s, k);
    case Take(id, k, expected) => TakeKeeps(sha, s, id, k, expected);
    case Spawn(id, chunk) => SpawnKeeps(sha, s, id, chunk);
    case RunAppend(id, o) => RunAppendKeeps(sha, s, id, o);
    case Leave(id) => LeaveKeeps(sha, s, id);
    case RunLate(id, o) => RunLateKeeps(sha, s, id, o);
    case Put(id) => PutKeeps(sha, s, id);
    case Seal(k, b) => SealKeeps(sha, s, k, b);
    case Discard(k, deleted) => DiscardKeeps(sha, s, k, deleted);
    case Panic(k, deleted) => PanicKeeps(sha, s, k, deleted);
    case Publish(k) => PublishKeeps(sha, s, k);
    case GiveUp(k, deleted) => GiveUpKeeps(sha, s, k, deleted);
    case PurgeFile(k) => PurgeFileKeeps(sha, s, k);
    case DeleteFile(l) => DeleteFileKeeps(sha, s, l);
    case WriteMedia(b, bytes) => WriteMediaKeeps(sha, s, b, bytes);
    case LinkContent(from, to) => LinkContentKeeps(sha, s, from, to);
    case LinkMedia(from, to) => LinkMediaKeeps(sha, s, from, to);
    case SaveOpen(b) => SaveOpenKeeps(sha, s, b);
    case SaveWrite(b, chunk, o) => SaveWriteKeeps(sha, s, b, chunk, o);
    case SavePublish(b) => SavePublishKeeps(sha, s, b);
    case SaveEnd(b, deleted) => SaveEndKeeps(sha, s, b, deleted);
  }

  lemma {:induction false} RunKeeps(sha: Bytes -> Bytes, s: State, es: seq<Event>)
    requires Inv(sha, s) && ValidRun(sha, s, es)
    ensures Inv(sha, Run(sha, s, es))
    decreases |es|
  {
    hide Inv, Enabled, Apply;
    if es != [] {
      RunKeeps(sha, s, Front(es));
      StepKeeps(sha, Run(sha, s, Front(es)), Last(es));
    }
  }

  lemma RunsKeep(sha: Bytes -> Bytes, s: State, es: seq<Event>, s': State)
    requires Inv(sha, s) && RunsTo(sha, s, es, s')
    ensures Inv(sha, s')
  {
    RunKeeps(sha, s, es);
  }

  /** Content addressing: whatever interleaves and whatever fails, a stored blob is what its digest says. */
  lemma StoredBlobsMatchTheirDigest(sha: Bytes -> Bytes, s: State, es: seq<Event>, b: BlobKey)
    requires Initial(sha, s) && ValidRun(sha, s, es)
    ensures var d := Run(sha, s, es).disk;
            Content(b) in d.names ==>
              Digests.Valid(b.digest) && Digests.AsBytes(b.digest) == sha(Read(d, Content(b)))
  {
    hide Enabled, Apply;
    InitialInv(sha, s);
    RunKeeps(sha, s, es);
  }

  ghost predicate SoleWriter(s: State, k: UploadKey, id: nat)
  {
    && id in s.writers && s.writers[id].key == k
    && (forall i :: i in s.writers && s.writers[i].key == k ==> i == id)
    && (forall i :: i in s.late ==> s.late[i].key != k)
  }

  ghost predicate NoWriter(s: State, k: UploadKey)
  {
    forall i :: i in s.writers ==> s.writers[i].key != k
  }

  /**
   The hasher of a live upload is a linear token: in the session, in step with the file and unwritten; or
   with one sole writer; or lost, and then for good (`DoomedForever`).
   */
  lemma HasherIsLinear(sha: Bytes -> Bytes, s: State, k: UploadKey)
    requires Inv(sha, s) && Lookup(s.table, k).Some?
    ensures var u := Lookup(s.table, k).value;
            || (&& u.hasher == Some(ReadOrEmpty(s.disk, UploadTemp(k))) && u.offset == |u.hasher.value|
                && NobodyWrites(s, k))
            || (u.hasher == None && exists id :: SoleWriter(s, k, id))
            || Doomed(s, k)
  {
    assert KeyOk(sha, s, k);
    if HasherOut(s.table, k) && !NoWriter(s, k) {
      var id :| id in s.writers && s.writers[id].key == k;
      assert WriterOk(s, id) && SoleWriter(s, k, id);
    }
  }

  /** The hasher of this upload is gone: aborted, discarded, or dropped with a call that failed. */
  ghost predicate Doomed(s: State, k: UploadKey)
  {
    && k in s.acked && k !in s.commits && !HasherIn(s.table, k)
    && (Lookup(s.table, k).Some? ==> NoWriter(s, k))
  }

  /** The steps that read or write the table under the mutex. */
  predicate Locks(e: Event)
  {
    e.Start? || e.Take? || e.Put? || e.Seal? || e.Discard? || e.Panic? || e.PurgeFile?
  }

  lemma DoomedTableStep(sha: Bytes -> Bytes, s: State, e: Event, k: UploadKey)
    requires Doomed(s, k) && Enabled(sha, s, e) && Locks(e)
    ensures Doomed(Apply(sha, s, e), k)
  {
    hide Matches, Body, NoEmptyEntries;
  }

  lemma DoomedStep(sha: Bytes -> Bytes, s: State, e: Event, k: UploadKey)
    requires Doomed(s, k) && Enabled(sha, s, e)
    ensures Doomed(Apply(sha, s, e), k)
  {
    if Locks(e) {
      DoomedTableStep(sha, s, e, k);
    } else {
      hide Lookup;
    }
  }

  /** A lost hasher never comes back, and its upload is never published. */
  lemma {:induction false} DoomedForever(sha: Bytes -> Bytes, s: State, es: seq<Event>, k: UploadKey)
    requires Doomed(s, k) && ValidRun(sha, s, es)
    ensures Doomed(Run(sha, s, es), k)
    ensures Publish(k) !in es
    decreases |es|
  {
    if es != [] {
      DoomedForever(sha, s, Front(es), k);
      assert es == Front(es) + [Last(es)];
      DoomedStep(sha, Run(sha, s, Front(es)), Last(es), k);
    }
  }

  /** A call that fails or is dropped between taking the hasher and putting it back dooms its upload. */
  lemma FailedWriteDooms(sha: Bytes -> Bytes, s: State, id: nat, e: Event)
    requires Inv(sha, s) && Enabled(sha, s, e) && id in s.writers
    requires e == Leave(id) || (e.RunAppend? && e.id == id && !e.outcome.Done?)
    ensures Doomed(Apply(sha, s, e), s.writers[id].key)
  {
    assert KeyOk(sha, s, s.writers[id].key) && WriterOk(s, id);
  }

  /**
   What a failed write leaves behind: as long as its session is there, a complete cannot seal it and can
   only panic, and that poisons the mutex.
   */
  lemma CompleteAfterFailedWritePanics(sha: Bytes -> Bytes, s: State, es: seq<Event>, k: UploadKey)
    requires Doomed(s, k) && ValidRun(sha, s, es)
    ensures var s' := Run(sha, s, es);
            Lookup(s'.table, k).Some? && !s'.poisoned ==>
              && (forall b :: !Enabled(sha, s', Seal(k, b)))
              && (forall deleted :: Enabled(sha, s', Panic(k, deleted)) && Apply(sha, s', Panic(k, deleted)).poisoned)
  {
    hide ValidRun, Run;
    DoomedForever(sha, s, es, k);
  }

  lemma PoisonedStep(sha: Bytes -> Bytes, s: State, e: Event)
    requires s.poisoned && Enabled(sha, s, e)
    ensures Apply(sha, s, e).poisoned && !Locks(e)
  {}

  /** A poisoned mutex ends the uploader for every repository: no step takes it again. */
  lemma {:induction false} PoisonedForever(sha: Bytes -> Bytes, s: State, es: seq<Event>)
    requires s.poisoned && ValidRun(sha, s, es)
    ensures Run(sha, s, es).poisoned
    ensures forall i :: 0 <= i < |es| ==> !Locks(es[i])
    decreases |es|
  {
    hide Apply, Enabled, Locks;
    if es != [] {
      PoisonedForever(sha, s, Front(es));
      PoisonedStep(sha, Run(sha, s, Front(es)), Last(es));
    }
  }

  /** The stored blobs one step may create, replace or remove; writes and appends are not among them. */
  function Rewritten(s: State, e: Event): set<Loc>
  {
    match e
    case Publish(k) => if k in s.commits then {Content(s.commits[k])} else {}
    case SavePublish(b) => {Content(b)}
    case LinkContent(_, to) => {Content(to)}
    case DeleteFile(l) => {l}
    case _ => {}
  }

  lemma PublishKeepsContent(sha: Bytes -> Bytes, s: State, k: UploadKey)
    requires Inv(sha, s) && k in s.commits && UploadTemp(k) in s.disk.names
    ensures KeepsContent(s.disk, Rename(s.disk, UploadTemp(k), Content(s.commits[k])), {Content(s.commits[k])})
  {
    assert KeyOk(sha, s, k);
    PublishSound(sha, s.disk, UploadTemp(k), s.commits[k]);
  }

  lemma SaveWriteKeepsContent(sha: Bytes -> Bytes, s: State, b: BlobKey, bytes: Bytes)
    requires Inv(sha, s) && b in s.savers
    ensures KeepsContent(s.disk, WriteInode(s.disk, s.savers[b].inode, bytes), {})
  {
    assert SaverOk(s.disk, s.savers, b);
    WriteHandleSound(sha, s.disk, s.savers[b].inode, SaveTemp(b), bytes);
  }

  /** A step that writes, renames or links: all others leave the disk alone, open a new file or delete one. */
  predicate Moves(e: Event)
  {
    || e.RunAppend? || e.RunLate? || e.Publish? || e.WriteMedia? || e.LinkContent? || e.LinkMedia? || e.SaveWrite?
    || e.SavePublish?
  }

  lemma UnlinkKeepsContent(d: Disk, l: Loc, deleted: bool)
    ensures KeepsContent(d, UnlinkIf(deleted, d, l), if l.Content? then {l} else {})
  {}

  lemma TouchKeepsContent(d: Disk, l: Loc)
    requires WellFormed(d) && !l.Content?
    ensures KeepsContent(d, Touch(d, l), {})
  {}

  lemma DeleteKeepsContent(d: Disk, l: Loc)
    ensures KeepsContent(d, Unlink(d, l), {l})
  {}

  lemma NothingChanges(d: Disk)
    ensures KeepsContent(d, d, {})
  {}

  lemma StillStepKeepsContent(sha: Bytes -> Bytes, s: State, e: Event)
    requires WellFormed(s.disk) && Enabled(sha, s, e) && !Moves(e)
    ensures KeepsContent(s.disk, Apply(sha, s, e).disk, Rewritten(s, e))
  {
    hide KeepsContent, WellFormed, Touch;
    match e
    case Discard(k, deleted) => UnlinkKeepsContent(s.disk, UploadTemp(k), deleted);
    case Panic(k, deleted) => UnlinkKeepsContent(s.disk, UploadTemp(k), deleted);
    case GiveUp(k, deleted) => UnlinkKeepsContent(s.disk, UploadTemp(k), deleted);
    case PurgeFile(k) => UnlinkKeepsContent(s.disk, UploadTemp(k), true);
    case DeleteFile(l) => DeleteKeepsContent(s.disk, l);
    case SaveEnd(b, deleted) => UnlinkKeepsContent(s.disk, SaveTemp(b), deleted);
    case SaveOpen(b) => TouchKeepsContent(s.disk, SaveTemp(b));
    case _ => NothingChanges(s.disk);
  }

  lemma MoveKeepsContent(sha: Bytes -> Bytes, s: State, e: Event)
    requires Inv(sha, s) && Enabled(sha, s, e) && Moves(e)
    ensures KeepsContent(s.disk, Apply(sha, s, e).disk, Rewritten(s, e))
  {
    hide KeepsContent, KeyOk, SaversOk;
    match e
    case RunAppend(id, o) => AppendFrame(sha, s, s.writers[id].key, s.writers[id].pending.value, o);
    case RunLate(id, o) => AppendFrame(sha, s, s.late[id].key, s.late[id].chunk, o);
    case Publish(k) => PublishKeepsContent(sha, s, k);
    case WriteMedia(b, bytes) => OverwriteMediaSound(sha, s.disk, b, bytes);
    case LinkContent(from, to) => LinkContentSound(sha, s.disk, from, to);
    case LinkMedia(from, to) => LinkMediaSound(sha, s.disk, from, to);
    case SaveWrite(b, chunk, o) => SaveWriteKeepsContent(sha, s, b, Reached(chunk, o)); NothingChanges(s.disk);
    case SavePublish(b) => SavePublishFrame(sha, s.disk, s.savers, b);
  }

  /** So no append, late or not, and no media type write ever reaches a stored blob. */
  lemma StepKeepsContent(sha: Bytes -> Bytes, s: State, e: Event)
    requires Inv(sha, s) && Enabled(sha, s, e)
    ensures KeepsContent(s.disk, Apply(sha, s, e).disk, Rewritten(s, e))
  {
    hide Apply, Rewritten, KeepsContent;
    if Moves(e) {
      MoveKeepsContent(sha, s, e);
    } else {
      StillStepKeepsContent(sha, s, e);
    }
  }

  /** The repository whose stored blobs a step may change. */
  function TargetRepository(e: Event): Option<Repository>
  {
    match e
    case Publish(k) => Some(Local(k.repository))
    case SavePublish(b) => Some(b.repository)
    case LinkContent(_, to) => Some(to.repository)
    case DeleteFile(l) => if l.UploadTemp? then None else Some(l.blob.repository)
    case _ => None
  }

  lemma StepRewritesItsTarget(sha: Bytes -> Bytes, s: State, e: Event, l: Loc)
    requires Inv(sha, s) && Enabled(sha, s, e) && l.Content? && TargetRepository(e) != Some(l.blob.repository)
    ensures l !in Rewritten(s, e)
  {
    if e.Publish? {
      assert KeyOk(sha, s, e.key);
    }
  }

  /** Mounted or not, a repository's blobs change only by steps aimed at that repository. */
  lemma {:induction false} RepositoriesAreIndependent(
    sha: Bytes -> Bytes, s: State, es: seq<Event>, repository: Repository, l: Loc)
    requires Inv(sha, s) && ValidRun(sha, s, es) && l.Content? && l.blob.repository == repository
    requires forall i :: 0 <= i < |es| ==> TargetRepository(es[i]) != Some(repository)
    ensures var s' := Run(sha, s, es);
            && (l in s.disk.names <==> l in s'.disk.names)
            && (l in s.disk.names ==> Read(s'.disk, l) == Read(s.disk, l))
    decreases |es|
  {
    hide Inv, Apply, Enabled, Rewritten;
    if es != [] {
      var before := Run(sha, s, Front(es));
      RepositoriesAreIndependent(sha, s, Front(es), repository, l);
      RunKeeps(sha, s, Front(es));
      StepKeepsContent(sha, before, Last(es));
      StepRewritesItsTarget(sha, before, Last(es), l);
    }
  }

  /** A write_chunk call, as its events tell it: the upload it took, and every portion its reader gave it. */
  datatype Call = Call(key: UploadKey, given: Bytes)

  /** The latest call named `id` in a run, from its `Take` and `Spawn` events alone. */
  function CallOf(es: seq<Event>, id: nat): Option<Call>
    decreases |es|
  {
    if es == [] then None
    else
      var before := CallOf(Front(es), id);
      match Last(es)
      case Take(i, k, _) => if i == id then Some(Call(k, [])) else before
      case Spawn(i, chunk) =>
        if i == id && before.Some? then Some(before.value.(given := before.value.given + chunk)) else before
      case _ => before
  }

  ghost predicate InStep(s: State, es: seq<Event>, id: nat)
  {
    id in s.writers ==>
      s.writers[id].start <= |s.writers[id].hasher|
      && CallOf(es, id) == Some(Call(s.writers[id].key, Body(s.writers[id])))
  }

  lemma CallStep(sha: Bytes -> Bytes, s: State, es: seq<Event>, e: Event, id: nat)
    requires Inv(sha, s) && Enabled(sha, s, e) && InStep(s, es, id)
    ensures InStep(Apply(sha, s, e), es + [e], id)
  {
    hide Inv;
    assert Front(es + [e]) == es;
    var s' := Apply(sha, s, e);
    if e.Take? && e.id == id {
      TakenInStep(sha, s, e.key);
    } else if e.Spawn? && e.id == id {
      var w := s.writers[id];
      assert (w.hasher + e.chunk)[w.start..] == w.hasher[w.start..] + e.chunk;
    } else {
      OtherCallStep(sha, s, e, id);
    }
  }

  /** The steps of write_chunk and of the appends it leaves behind. */
  predicate Writing(e: Event)
  {
    e.Take? || e.Spawn? || e.RunAppend? || e.Leave? || e.RunLate? || e.Put?
  }

  lemma OthersLeaveWriters(sha: Bytes -> Bytes, s: State, e: Event)
    requires Enabled(sha, s, e) && !Writing(e)
    ensures Apply(sha, s, e).writers == s.writers && Apply(sha, s, e).late == s.late
  {
    hide Matches, Lookup, Insert, Remove, UnlinkIf, Unlink, Touch, WriteInode, Overwrite, Rename;
  }

  lemma OtherCallStep(sha: Bytes -> Bytes, s: State, e: Event, id: nat)
    requires Enabled(sha, s, e) && !(e.Take? && e.id == id) && !(e.Spawn? && e.id == id)
    ensures var s' := Apply(sha, s, e);
            id in s'.writers ==>
              && id in s.writers && s'.writers[id].key == s.writers[id].key
              && s'.writers[id].hasher == s.writers[id].hasher && s'.writers[id].start == s.writers[id].start
  {
    if Writing(e) {
      hide Matches, Body, Lookup, Insert, AppendEffect;
    } else {
      OthersLeaveWriters(sha, s, e);
    }
  }

  lemma TakenInStep(sha: Bytes -> Bytes, s: State, k: UploadKey)
    requires Inv(sha, s) && HasherIn(s.table, k)
    ensures var u := Lookup(s.table, k).value;
            u.offset == |u.hasher.value| && Body(Writer(k, u.hasher.value, u.offset, 0, None)) == []
  {
    assert KeyOk(sha, s, k);
  }

  /** What a call in flight has absorbed of its own is what its reader gave it, whatever interleaves. */
  lemma {:induction false} CallsAbsorbWhatTheyAreGiven(sha: Bytes -> Bytes, s: State, es: seq<Event>, id: nat)
    requires Initial(sha, s) && ValidRun(sha, s, es)
    ensures InStep(Run(sha, s, es), es, id)
    decreases |es|
  {
    hide Inv, Apply, Enabled, InStep;
    if es == [] {
      NoCallYet(sha, s, id);
    } else {
      CallsAbsorbWhatTheyAreGiven(sha, s, Front(es), id);
      InitialInv(sha, s);
      RunKeeps(sha, s, Front(es));
      CallStep(sha, Run(sha, s, Front(es)), Front(es), Last(es), id);
      assert Front(es) + [Last(es)] == es;
    }
  }

  lemma NoCallYet(sha: Bytes -> Bytes, s: State, id: nat)
    requires Initial(sha, s)
    ensures InStep(s, [], id)
  {}

  /** The body this step acknowledges to `k`: what a call on `k` was given, if this is its returning Ok. */
  ghost function OkBody(s: State, before: seq<Event>, e: Event, k: UploadKey): seq<Bytes>
  {
    if e.Put? && Lookup(s.table, k).Some? && CallOf(before, e.id).Some? && CallOf(before, e.id).value.key == k
    then [CallOf(before, e.id).value.given]
    else []
  }

  /** What the write_chunk calls on `k` that returned Ok during this run were given, in order. */
  ghost function OkBodies(sha: Bytes -> Bytes, s: State, es: seq<Event>, k: UploadKey): seq<Bytes>
    requires ValidRun(sha, s, es)
    decreases |es|
  {
    if es == [] then []
    else OkBodies(sha, s, Front(es), k) + OkBody(Run(sha, s, Front(es)), Front(es), Last(es), k)
  }

  lemma AckedStep(sha: Bytes -> Bytes, s: State, es: seq<Event>, e: Event, k: UploadKey)
    requires Enabled(sha, s, e) && (e.Put? ==> InStep(s, es, e.id))
    ensures AckedBy(Apply(sha, s, e), k) == AckedBy(s, k) + OkBody(s, es, e, k)
  {
    if !e.Put? {
      assert AckedBy(s, k) + [] == AckedBy(s, k);
      assert !e.Start? ==> Apply(sha, s, e).acked == s.acked;
    }
  }

  /** The history of acknowledged bodies is exactly what the calls that returned Ok were given. */
  lemma {:induction false} AckedAreTheOkBodies(sha: Bytes -> Bytes, s: State, es: seq<Event>, k: UploadKey)
    requires Initial(sha, s) && ValidRun(sha, s, es)
    ensures AckedBy(Run(sha, s, es), k) == OkBodies(sha, s, es, k)
    decreases |es|
  {
    hide Inv, Apply, Enabled, InStep, OkBody;
    if es != [] {
      var before := Run(sha, s, Front(es));
      AckedAreTheOkBodies(sha, s, Front(es), k);
      if Last(es).Put? {
        CallsAbsorbWhatTheyAreGiven(sha, s, Front(es), Last(es).id);
      }
      AckedStep(sha, before, Front(es), Last(es), k);
    }
  }

  /** A published upload is exactly what its successful chunk calls were given, in order, and not empty. */
  lemma PublishedIsWhatWasAcknowledged(sha: Bytes -> Bytes, s: State, es: seq<Event>, k: UploadKey)
    requires Initial(sha, s) && ValidRun(sha, s, es) && Enabled(sha, Run(sha, s, es), Publish(k))
    ensures var before := Run(sha, s, es);
            var after := Apply(sha, before, Publish(k)).disk;
            && Content(before.commits[k]) in after.names
            && Read(after, Content(before.commits[k])) == Concat(OkBodies(sha, s, es, k)) != []
            && UploadTemp(k) !in after.names
  {
    InitialInv(sha, s);
    RunKeeps(sha, s, es);
    AckedAreTheOkBodies(sha, s, es, k);
    var before := Run(sha, s, es);
    assert KeyOk(sha, before, k);
    PublishSound(sha, before.disk, UploadTemp(k), before.commits[k]);
  }

  lemma SealThenPublish(sha: Bytes -> Bytes, s: State, k: UploadKey, b: BlobKey)
    requires Inv(sha, s) && Enabled(sha, s, Seal(k, b))
    ensures Enabled(sha, Apply(sha, s, Seal(k, b)), Publish(k)) <==> Concat(AckedBy(s, k)) != []
  {
    hide Sound, SaversOk, Concat, Matches;
    assert KeyOk(sha, s, k);
  }

  /** An upload whose digest checks out can be published exactly when its calls were given a byte at all. */
  lemma SealedCanBePublishedExactlyWhen(sha: Bytes -> Bytes, s: State, es: seq<Event>, k: UploadKey, b: BlobKey)
    requires Initial(sha, s) && ValidRun(sha, s, es) && Enabled(sha, Run(sha, s, es), Seal(k, b))
    ensures Enabled(sha, Apply(sha, Run(sha, s, es), Seal(k, b)), Publish(k))
        <==> Concat(OkBodies(sha, s, es, k)) != []
  {
    hide Inv, Apply, Enabled;
    InitialInv(sha, s);
    RunKeeps(sha, s, es);
    AckedAreTheOkBodies(sha, s, es, k);
    SealThenPublish(sha, Run(sha, s, es), k, b);
  }

  /** So the empty blob cannot be uploaded: start, then complete with the right digest, finds no file to rename. */
  lemma EmptyUploadCannotBePublished(sha: Bytes -> Bytes, k: UploadKey, b: BlobKey)
    requires b.repository == Local(k.repository) && b.kind == Blob && Matches(sha, b.digest, [])
    ensures var s := State(Disk(map[], map[], 0), map[], false, map[], map[], map[], map[], map[]);
            && Initial(sha, s) && ValidRun(sha, s, [Start(k), Seal(k, b)])
            && !Enabled(sha, Run(sha, s, [Start(k), Seal(k, b)]), Publish(k))
  {
    hide Matches, Inv, Concat, Insert, Remove;
    var s := State(Disk(map[], map[], 0), map[], false, map[], map[], map[], map[], map[]);
    assert [] + [Start(k)] == [Start(k)] && [Start(k)] + [Seal(k, b)] == [Start(k), Seal(k, b)];
    RunSnoc(sha, s, [], Start(k));
    RunSnoc(sha, s, [Start(k)], Seal(k, b));
  }

  /** Whenever it is asked, status reports the length of everything acknowledged so far. */
  lemma StatusReportsTheTotal(sha: Bytes -> Bytes, s: State, es: seq<Event>, k: UploadKey)
    requires Initial(sha, s) && ValidRun(sha, s, es)
    ensures var found := Lookup(Run(sha, s, es).table, k);
            found.Some? ==> found.value.offset == |Concat(OkBodies(sha, s, es, k))|
  {
    hide Enabled, Apply;
    InitialInv(sha, s);
    RunKeeps(sha, s, es);
    AckedAreTheOkBodies(sha, s, es, k);
    assert KeyOk(sha, Run(sha, s, es), k);
  }

  lemma {:induction false} PrefixValid(sha: Bytes -> Bytes, s: State, es: seq<Event>, later: seq<Event>)
    requires es <= later && ValidRun(sha, s, later)
    ensures ValidRun(sha, s, es)
    decreases |later|
  {
    hide Enabled, Apply;
    if |es| < |later| {
      assert es <= Front(later);
      PrefixValid(sha, s, es, Front(later));
    } else {
      assert es == later;
    }
  }

  /**
   A chunk call that returns Ok returns the total of what all such calls on its upload were given, itself
   included, and status reports that until another one returns Ok.
   */
  lemma PutReturnsTheTotal(sha: Bytes -> Bytes, s: State, es: seq<Event>, id: nat, later: seq<Event>)
    requires Initial(sha, s) && es + [Put(id)] <= later && ValidRun(sha, s, later)
    ensures ValidRun(sha, s, es) && ValidRun(sha, s, es + [Put(id)]) && id in Run(sha, s, es).writers
    ensures var w := Run(sha, s, es).writers[id];
            var bodies := OkBodies(sha, s, es + [Put(id)], w.key);
            Lookup(Run(sha, s, es).table, w.key).Some? ==>
              && CallOf(es, id).Some? && CallOf(es, id).value.key == w.key
              && bodies == OkBodies(sha, s, es, w.key) + [CallOf(es, id).value.given]
              && w.start + w.written == |Concat(bodies)|
              && (Lookup(Run(sha, s, later).table, w.key).Some? && OkBodies(sha, s, later, w.key) == bodies ==>
                   Lookup(Run(sha, s, later).table, w.key).value.offset == w.start + w.written)
  {
    hide Inv, Concat;
    PrefixValid(sha, s, es + [Put(id)], later);
    assert Front(es + [Put(id)]) == es && Last(es + [Put(id)]) == Put(id);
    RunSnoc(sha, s, es, Put(id));
    var w := Run(sha, s, es).writers[id];
    StatusReportsTheTotal(sha, s, es + [Put(id)], w.key);
    StatusReportsTheTotal(sha, s, later, w.key);
    CallsAbsorbWhatTheyAreGiven(sha, s, es, id);
  }

  /** The steps of a call on upload `k` that can begin while its session holds the hasher. */
  predicate ActsOn(e: Event, k: UploadKey)
  {
    (e.Take? && e.key == k) || (e.Seal? && e.key == k) || (e.Discard? && e.key == k)
  }

  lemma IdleTableStep(sha: Bytes -> Bytes, s: State, e: Event, k: UploadKey)
    requires Enabled(sha, s, e) && HasherIn(s.table, k) && NobodyWrites(s, k) && !ActsOn(e, k) && Locks(e)
    requires k in s.acked
    ensures Lookup(Apply(sha, s, e).table, k) == Lookup(s.table, k)
  {}

  lemma OnlyLocksChangeTheTable(sha: Bytes -> Bytes, s: State, e: Event)
    requires Enabled(sha, s, e) && !Locks(e)
    ensures Apply(sha, s, e).table == s.table
  {}

  lemma IdleStep(sha: Bytes -> Bytes, s: State, e: Event, k: UploadKey)
    requires Inv(sha, s) && Enabled(sha, s, e) && HasherIn(s.table, k) && !ActsOn(e, k)
    ensures Lookup(Apply(sha, s, e).table, k) == Lookup(s.table, k)
  {
    assert KeyOk(sha, s, k);
    hide Inv, Apply, Enabled, Locks, ActsOn, Lookup;
    if Locks(e) {
      IdleTableStep(sha, s, e, k);
    } else {
      OnlyLocksChangeTheTable(sha, s, e);
    }
  }

  /**
   An upload nobody works on keeps its session and its file through any run of all the others: chunk writes,
   commits, aborts, every purge, saves, mounts and deletes.
   */
  lemma {:induction false} IdleUploadsAreLeftAlone(sha: Bytes -> Bytes, s: State, es: seq<Event>, k: UploadKey)
    requires Inv(sha, s) && ValidRun(sha, s, es) && HasherIn(s.table, k)
    requires forall i :: 0 <= i < |es| ==> !ActsOn(es[i], k)
    ensures var s' := Run(sha, s, es);
            && Lookup(s'.table, k) == Lookup(s.table, k)
            && (UploadTemp(k) in s'.disk.names <==> UploadTemp(k) in s.disk.names)
            && ReadOrEmpty(s'.disk, UploadTemp(k)) == ReadOrEmpty(s.disk, UploadTemp(k))
    decreases |es|
  {
    hide Apply, Enabled;
    RunKeeps(sha, s, es);
    assert KeyOk(sha, s, k) && KeyOk(sha, Run(sha, s, es), k);
    if es != [] {
      hide Inv;
      IdleUploadsAreLeftAlone(sha, s, Front(es), k);
      RunKeeps(sha, s, Front(es));
      IdleStep(sha, Run(sha, s, Front(es)), Last(es), k);
    }
  }

  ghost predicate NoLeftovers(s: State)
  {
    forall b :: SaveTemp(b) in s.disk.names ==> b in s.savers
  }

  /** A temporary file other than the one appended to does not come into being by a write, rename or link. */
  lemma MovesOpenNoTemp(sha: Bytes -> Bytes, s: State, e: Event, l: Loc)
    requires Enabled(sha, s, e) && l !in s.disk.names && Moves(e) && (l.UploadTemp? || l.SaveTemp?)
    requires e.RunAppend? ==> l != UploadTemp(s.writers[e.id].key)
    requires e.RunLate? ==> l != UploadTemp(s.late[e.id].key)
    ensures l !in Apply(sha, s, e).disk.names
  {
    hide Matches, Lookup, Held, Reached;
  }

  /** Only opening a save creates its temporary file. */
  lemma SaveTempsAppearOnOpen(sha: Bytes -> Bytes, s: State, e: Event, b: BlobKey)
    requires Enabled(sha, s, e) && SaveTemp(b) !in s.disk.names && e != SaveOpen(b)
    ensures SaveTemp(b) !in Apply(sha, s, e).disk.names
  {
    if Moves(e) {
      MovesOpenNoTemp(sha, s, e, SaveTemp(b));
    }
  }

  lemma PublishedTempIsGone(sha: Bytes -> Bytes, s: State, b: BlobKey)
    requires Inv(sha, s) && Enabled(sha, s, SavePublish(b))
    ensures SaveTemp(b) !in Apply(sha, s, SavePublish(b)).disk.names
  {
    assert SaverOk(s.disk, s.savers, b);
    PublishSound(sha, s.disk, SaveTemp(b), b);
  }

  lemma NoLeftoversStep(sha: Bytes -> Bytes, s: State, e: Event)
    requires Inv(sha, s) && NoLeftovers(s) && Enabled(sha, s, e) && (e.SaveEnd? ==> e.deleted)
    ensures NoLeftovers(Apply(sha, s, e))
  {
    var s' := Apply(sha, s, e);
    forall b | SaveTemp(b) in s'.disk.names
      ensures b in s'.savers
    {
      if SaveTemp(b) !in s.disk.names && e != SaveOpen(b) {
        SaveTempsAppearOnOpen(sha, s, e, b);
      } else if e == SavePublish(b) {
        PublishedTempIsGone(sha, s, b);
      }
    }
  }

  lemma SaveCanOpen(sha: Bytes -> Bytes, s: State, b: BlobKey)
    ensures NoLeftovers(s) && b !in s.savers ==> Enabled(sha, s, SaveOpen(b))
  {}

  /** While clean-up deletes work, one save at a time is all that opening a save needs. */
  lemma {:induction false} SavesFindNoLeftovers(sha: Bytes -> Bytes, s: State, es: seq<Event>, b: BlobKey)
    requires Inv(sha, s) && NoLeftovers(s) && ValidRun(sha, s, es)
    requires forall i :: 0 <= i < |es| && es[i].SaveEnd? ==> es[i].deleted
    ensures NoLeftovers(Run(sha, s, es))
    ensures b !in Run(sha, s, es).savers ==> Enabled(sha, Run(sha, s, es), SaveOpen(b))
    decreases |es|
  {
    hide Inv, Apply, Enabled, NoLeftovers;
    SaveCanOpen(sha, Run(sha, s, es), b);
    if es != [] {
      SavesFindNoLeftovers(sha, s, Front(es), b);
      RunKeeps(sha, s, Front(es));
      NoLeftoversStep(sha, Run(sha, s, Front(es)), Last(es));
    }
  }
}
