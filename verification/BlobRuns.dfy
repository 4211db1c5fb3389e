/** How calls on the disk decompose into the protocol's events. */
module BlobRuns {
  import opened Basics
  import opened BlobPaths
  import opened BlobCommits
  import opened Disks
  import opened Sessions
  import opened UploadProtocol
  import opened UploadTheorems

  /** In any state with disk `d` the events can happen, and then only the disk differs: it is `d'`. */
  ghost predicate Reaches(sha: Bytes -> Bytes, d: Disk, es: seq<Event>, d': Disk)
  {
    forall s: State :: s.disk == d ==> ValidRun(sha, s, es) && Run(sha, s, es) == s.(disk := d')
  }

  /** The event takes any state with disk `d` to one that differs in the disk `d'` only. */
  ghost predicate Leads(sha: Bytes -> Bytes, d: Disk, e: Event, d': Disk)
  {
    forall s: State :: s.disk == d ==> Enabled(sha, s, e) && Apply(sha, s, e) == s.(disk := d')
  }

  lemma ReachesNothing(sha: Bytes -> Bytes, d: Disk)
    ensures Reaches(sha, d, [], d)
  {}

  lemma ReachesStep(sha: Bytes -> Bytes, d: Disk, es: seq<Event>, d1: Disk, e: Event, d2: Disk)
    requires Reaches(sha, d, es, d1) && Leads(sha, d1, e, d2)
    ensures Reaches(sha, d, es + [e], d2)
  {
    hide Enabled, Apply;
    forall s: State | s.disk == d
      ensures ValidRun(sha, s, es + [e]) && Run(sha, s, es + [e]) == s.(disk := d2)
    {
      RunSnoc(sha, s, es, e);
    }
  }

  lemma DeleteLeads(sha: Bytes -> Bytes, d: Disk, l: Loc)
    requires !l.UploadTemp?
    ensures Leads(sha, d, DeleteFile(l), Unlink(d, l))
  {}

  lemma LinkContentLeads(sha: Bytes -> Bytes, d: Disk, from: BlobKey, to: BlobKey)
    requires Content(from) in d.names && Content(to) !in d.names && from.digest == to.digest
    ensures Leads(sha, d, LinkContent(from, to), Link(d, Content(from), Content(to)))
  {}

  lemma LinkMediaLeads(sha: Bytes -> Bytes, d: Disk, from: BlobKey, to: BlobKey)
    requires MediaType(from) in d.names && MediaType(to) !in d.names && from.digest == to.digest
    ensures Leads(sha, d, LinkMedia(from, to), Link(d, MediaType(from), MediaType(to)))
  {}

  /** The same for a save of `b`, which opens and closes a saver: `v` is the saver open at the end, if any. */
  ghost predicate SaveReaches(
    sha: Bytes -> Bytes, b: BlobKey, d: Disk, es: seq<Event>, d': Disk, v: Option<Saver>)
  {
    forall s: State :: s.disk == d && b !in s.savers ==>
      && ValidRun(sha, s, es)
      && Run(sha, s, es) == s.(disk := d', savers := if v.Some? then s.savers[b := v.value] else s.savers)
  }

  ghost predicate Saving(s: State, b: BlobKey, d: Disk, v: Option<Saver>)
  {
    s.disk == d && if v.Some? then b in s.savers && s.savers[b] == v.value else b !in s.savers
  }

  ghost predicate SaveLeads(
    sha: Bytes -> Bytes, b: BlobKey, d: Disk, v: Option<Saver>, e: Event, d': Disk, v': Option<Saver>)
  {
    forall s: State :: Saving(s, b, d, v) ==>
      && Enabled(sha, s, e)
      && Apply(sha, s, e) ==
         s.(disk := d', savers := if v'.Some? then s.savers[b := v'.value] else s.savers - {b})
  }

  lemma SaveReachesNothing(sha: Bytes -> Bytes, b: BlobKey, d: Disk)
    ensures SaveReaches(sha, b, d, [], d, None)
  {}

  lemma ReplaceSaver(savers: map<BlobKey, Saver>, b: BlobKey, v1: Option<Saver>, v2: Option<Saver>)
    requires b !in savers
    ensures var now := if v1.Some? then savers[b := v1.value] else savers;
            now - {b} == savers && (v2.Some? ==> now[b := v2.value] == savers[b := v2.value])
  {}

  lemma SaveReachesStep(
    sha: Bytes -> Bytes, b: BlobKey, d: Disk, es: seq<Event>, d1: Disk, v1: Option<Saver>,
    e: Event, d2: Disk, v2: Option<Saver>)
    requires SaveReaches(sha, b, d, es, d1, v1) && SaveLeads(sha, b, d1, v1, e, d2, v2)
    ensures SaveReaches(sha, b, d, es + [e], d2, v2)
  {
    hide Enabled, Apply;
    forall s: State | s.disk == d && b !in s.savers
      ensures ValidRun(sha, s, es + [e])
      ensures Run(sha, s, es + [e])
           == s.(disk := d2, savers := if v2.Some? then s.savers[b := v2.value] else s.savers)
    {
      RunSnoc(sha, s, es, e);
      var s1 := Run(sha, s, es);
      assert Saving(s1, b, d1, v1);
      ReplaceSaver(s.savers, b, v1, v2);
    }
  }

  lemma OpenLeads(sha: Bytes -> Bytes, b: BlobKey, d: Disk)
    requires SaveTemp(b) !in d.names
    ensures var d' := Touch(d, SaveTemp(b));
            SaveLeads(sha, b, d, None, SaveOpen(b), d', Some(Saver(d'.names[SaveTemp(b)], [], true)))
  {}

  /** A write of the open file: whole, or cut short after a proper prefix. */
  lemma WriteLeads(sha: Bytes -> Bytes, b: BlobKey, d: Disk, v: Saver, chunk: Bytes, written: Bytes, ok: bool)
    requires v.intact && written <= chunk && (ok ==> written == chunk)
    ensures SaveLeads(sha, b, d, Some(v), SaveWrite(b, chunk, if ok then Done else CutShort(|written|)),
                      WriteInode(d, v.inode, written), Some(Saver(v.inode, v.hasher + chunk, ok)))
  {
    assert Reached(chunk, if ok then Done else CutShort(|written|)) == written;
  }

  lemma EndLeads(sha: Bytes -> Bytes, b: BlobKey, d: Disk, v: Saver, deleted: bool)
    ensures SaveLeads(sha, b, d, Some(v), SaveEnd(b, deleted), UnlinkIf(deleted, d, SaveTemp(b)), None)
  {}

  lemma PublishLeads(sha: Bytes -> Bytes, b: BlobKey, d: Disk, v: Saver)
    requires v.intact && SaveTemp(b) in d.names && Matches(sha, b.digest, v.hasher)
    ensures SaveLeads(sha, b, d, Some(v), SavePublish(b), Rename(d, SaveTemp(b), Content(b)), None)
  {}

  lemma WriteMediaLeads(sha: Bytes -> Bytes, b: BlobKey, d: Disk, bytes: Bytes)
    ensures SaveLeads(sha, b, d, None, WriteMedia(b, bytes), Overwrite(d, MediaType(b), bytes), None)
  {
    assert forall s: State :: b !in s.savers ==> s.savers - {b} == s.savers;
  }

  lemma SaveDeleteLeads(sha: Bytes -> Bytes, b: BlobKey, d: Disk, l: Loc)
    requires !l.UploadTemp?
    ensures SaveLeads(sha, b, d, None, DeleteFile(l), Unlink(d, l), None)
  {
    assert forall s: State :: b !in s.savers ==> s.savers - {b} == s.savers;
  }

  /** A clean-up of a save, as far as it gets. */
  function Deletes(b: BlobKey, n: nat): seq<Event>
    requires n <= 3
  {
    if n == 0 then [] else Deletes(b, n - 1) + [DeleteFile(CommitFiles(SaveTemp(b), b)[n - 1])]
  }

  lemma {:induction false} CleanUpReaches(
    sha: Bytes -> Bytes, b: BlobKey, d: Disk, es: seq<Event>, d1: Disk, n: nat)
    requires n <= 3 && SaveReaches(sha, b, d, es, d1, None)
    ensures SaveReaches(sha, b, d, es + Deletes(b, n), CleanedUpTo(d1, SaveTemp(b), b, n), None)
  {
    hide SaveReaches, SaveLeads;
    if n == 0 {
      assert es + Deletes(b, 0) == es;
    } else {
      var l := CommitFiles(SaveTemp(b), b)[n - 1];
      CleanUpReaches(sha, b, d, es, d1, n - 1);
      SaveDeleteLeads(sha, b, CleanedUpTo(d1, SaveTemp(b), b, n - 1), l);
      SaveReachesStep(sha, b, d, es + Deletes(b, n - 1), CleanedUpTo(d1, SaveTemp(b), b, n - 1), None,
                      DeleteFile(l), CleanedUpTo(d1, SaveTemp(b), b, n), None);
      assert es + Deletes(b, n) == es + Deletes(b, n - 1) + [DeleteFile(l)];
    }
  }

  /** The events of a commit of a save that went as `f` says. */
  function CommitEvents(b: BlobKey, f: Fate): seq<Event>
    requires f.cleaned <= 3 && f.dropped <= 3
  {
    [if f.renamed then SavePublish(b) else SaveEnd(b, false)]
    + (if f.written.Some? then [WriteMedia(b, f.written.value)] else [])
    + Deletes(b, f.cleaned) + Deletes(b, f.dropped)
  }

  lemma CommitReaches(
    sha: Bytes -> Bytes, b: BlobKey, d: Disk, es: seq<Event>, d1: Disk, v: Saver, f: Fate)
    requires SaveReaches(sha, b, d, es, d1, Some(v)) && Possible(d1, SaveTemp(b), f)
    requires v.intact && Matches(sha, b.digest, v.hasher)
    ensures SaveReaches(sha, b, d, es + CommitEvents(b, f), CommitEffect(d1, SaveTemp(b), b, f), None)
  {
    hide SaveReaches, SaveLeads, Deletes, CleanedUpTo, Matches;
    var first := if f.renamed then SavePublish(b) else SaveEnd(b, false);
    var renamed := if f.renamed then Rename(d1, SaveTemp(b), Content(b)) else d1;
    if f.renamed {
      PublishLeads(sha, b, d1, v);
    } else {
      EndLeads(sha, b, d1, v, false);
    }
    SaveReachesStep(sha, b, d, es, d1, Some(v), first, renamed, None);
    var tried := Tried(d1, SaveTemp(b), b, f);
    var soFar := es + [first];
    if f.written.Some? {
      WriteMediaLeads(sha, b, renamed, f.written.value);
      SaveReachesStep(sha, b, d, soFar, renamed, None, WriteMedia(b, f.written.value), tried, None);
      soFar := soFar + [WriteMedia(b, f.written.value)];
    }
    CleanUpReaches(sha, b, d, soFar, tried, f.cleaned);
    CleanUpReaches(sha, b, d, soFar + Deletes(b, f.cleaned), CleanedUpTo(tried, SaveTemp(b), b, f.cleaned), f.dropped);
    assert es + CommitEvents(b, f) == soFar + Deletes(b, f.cleaned) + Deletes(b, f.dropped);
  }

  /** A clean-up of an upload, as far as it gets: its temporary file is purged, the other two are deleted. */
  function UploadDeletes(k: UploadKey, b: BlobKey, n: nat): seq<Event>
    requires n <= 3
  {
    if n == 0 then []
    else
      var last := if n == 1 then PurgeFile(k) else DeleteFile(CommitFiles(UploadTemp(k), b)[n - 1]);
      UploadDeletes(k, b, n - 1) + [last]
  }

  lemma {:induction false} UploadCleanUpRuns(
    sha: Bytes -> Bytes, s: State, es: seq<Event>, s1: State, k: UploadKey, b: BlobKey, n: nat)
    requires n <= 3 && RunsTo(sha, s, es, s1) && !s1.poisoned && Lookup(s1.table, k).None?
    ensures RunsTo(sha, s, es + UploadDeletes(k, b, n), s1.(disk := CleanedUpTo(s1.disk, UploadTemp(k), b, n)))
  {
    hide RunsTo;
    if n == 0 {
      assert es + UploadDeletes(k, b, 0) == es;
    } else {
      var before := s1.(disk := CleanedUpTo(s1.disk, UploadTemp(k), b, n - 1));
      var l := CommitFiles(UploadTemp(k), b)[n - 1];
      var last := if n == 1 then PurgeFile(k) else DeleteFile(l);
      UploadCleanUpRuns(sha, s, es, s1, k, b, n - 1);
      RunsStep(sha, s, es + UploadDeletes(k, b, n - 1), before, last);
      assert es + UploadDeletes(k, b, n) == es + UploadDeletes(k, b, n - 1) + [last];
    }
  }

  /** The events of a commit of an upload that went as `f` says. */
  function UploadCommitEvents(k: UploadKey, b: BlobKey, f: Fate): seq<Event>
    requires f.cleaned <= 3 && f.dropped <= 3
  {
    [if f.renamed then Publish(k) else GiveUp(k, false)]
    + (if f.written.Some? then [WriteMedia(b, f.written.value)] else [])
    + UploadDeletes(k, b, f.cleaned) + UploadDeletes(k, b, f.dropped)
  }

  lemma UploadCommitRuns(sha: Bytes -> Bytes, s: State, k: UploadKey, b: BlobKey, f: Fate)
    requires k in s.commits && s.commits[k] == b && Possible(s.disk, UploadTemp(k), f)
    requires !s.poisoned && Lookup(s.table, k).None?
    ensures RunsTo(sha, s, UploadCommitEvents(k, b, f),
                   s.(disk := CommitEffect(s.disk, UploadTemp(k), b, f), commits := s.commits - {k}))
  {
    hide RunsTo, UploadDeletes, CleanedUpTo, Lookup;
    var first := if f.renamed then Publish(k) else GiveUp(k, false);
    var tried := s.(disk := Tried(s.disk, UploadTemp(k), b, f), commits := s.commits - {k});
    var es := [] + [first];
    RunsNowhere(sha, s);
    RunsStep(sha, s, [], s, first);
    if f.written.Some? {
      RunsStep(sha, s, es, Apply(sha, s, first), WriteMedia(b, f.written.value));
      es := es + [WriteMedia(b, f.written.value)];
    }
    assert RunsTo(sha, s, es, tried);
    hide Apply, Enabled, Tried;
    var cleaned := tried.(disk := CleanedUpTo(tried.disk, UploadTemp(k), b, f.cleaned));
    UploadCleanUpRuns(sha, s, es, tried, k, b, f.cleaned);
    UploadCleanUpRuns(sha, s, es + UploadDeletes(k, b, f.cleaned), cleaned, k, b, f.dropped);
    assert UploadCommitEvents(k, b, f) == es + UploadDeletes(k, b, f.cleaned) + UploadDeletes(k, b, f.dropped);
  }
}
