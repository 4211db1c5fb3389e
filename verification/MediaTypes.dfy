/** When one repository's media types change through another's: exactly through hard links that mounts made. */
module MediaTypes {
  import opened Basics
  import opened BlobPaths
  import opened Disks
  import opened Repositories
  import opened UploadProtocol
  import opened UploadSafety
  import opened UploadTheorems

  /** The steps that can change the media type of `c`: on it, or a write to a file that is the same one. */
  predicate Touches(s: State, e: Event, c: BlobKey)
  {
    match e
    case WriteMedia(b, _) => b == c || SameFile(s.disk, MediaType(b), MediaType(c))
    case LinkMedia(_, to) => to == c
    case DeleteFile(l) => l == MediaType(c)
    case _ => false
  }

  ghost predicate SameMedia(d: Disk, d': Disk, c: BlobKey)
  {
    && (MediaType(c) in d'.names <==> MediaType(c) in d.names)
    && ReadOrEmpty(d', MediaType(c)) == ReadOrEmpty(d, MediaType(c))
  }

  lemma SaveWriteKeepsMedia(sha: Bytes -> Bytes, s: State, b: BlobKey, bytes: Bytes, c: BlobKey)
    requires Inv(sha, s) && b in s.savers
    ensures SameMedia(s.disk, WriteInode(s.disk, s.savers[b].inode, bytes), c)
  {
    assert SaverOk(s.disk, s.savers, b);
  }

  lemma WriteMediaKeepsOthers(d: Disk, b: BlobKey, bytes: Bytes, c: BlobKey)
    requires WellFormed(d) && b != c && !SameFile(d, MediaType(b), MediaType(c))
    ensures SameMedia(d, Overwrite(d, MediaType(b), bytes), c)
  {
    if MediaType(c) in d.names {
      MediaWriteReachesExactly(d, b, c, bytes);
    }
  }

  lemma RenameKeepsMedia(d: Disk, from: Loc, to: Loc, c: BlobKey)
    requires from in d.names && !from.MediaType? && !to.MediaType?
    ensures SameMedia(d, Rename(d, from, to), c)
  {}

  lemma LinkKeepsMedia(d: Disk, from: Loc, to: Loc, c: BlobKey)
    requires from in d.names && to != MediaType(c)
    ensures SameMedia(d, Link(d, from, to), c)
  {}

  lemma AppendKeepsMedia(sha: Bytes -> Bytes, s: State, k: UploadKey, chunk: Bytes, o: Outcome, c: BlobKey)
    requires Inv(sha, s)
    ensures SameMedia(s.disk, AppendEffect(s.disk, UploadTemp(k), chunk, o), c)
  {
    AppendFrame(sha, s, k, chunk, o);
  }

  lemma MoveKeepsMedia(sha: Bytes -> Bytes, s: State, e: Event, c: BlobKey)
    requires Inv(sha, s) && Enabled(sha, s, e) && Moves(e) && !Touches(s, e, c)
    ensures SameMedia(s.disk, Apply(sha, s, e).disk, c)
  {
    assert WellFormed(s.disk);
    hide Inv, SameMedia;
    match e
    case RunAppend(id, o) => AppendKeepsMedia(sha, s, s.writers[id].key, s.writers[id].pending.value, o, c);
    case RunLate(id, o) => AppendKeepsMedia(sha, s, s.late[id].key, s.late[id].chunk, o, c);
    case Publish(k) => RenameKeepsMedia(s.disk, UploadTemp(k), Content(s.commits[k]), c);
    case WriteMedia(b, bytes) => WriteMediaKeepsOthers(s.disk, b, bytes, c);
    case LinkContent(from, to) => LinkKeepsMedia(s.disk, Content(from), Content(to), c);
    case LinkMedia(from, to) => LinkKeepsMedia(s.disk, MediaType(from), MediaType(to), c);
    case SaveWrite(b, chunk, o) =>
      SaveWriteKeepsMedia(sha, s, b, Reached(chunk, o), c);
      NoChange(s.disk, c);
    case SavePublish(b) => RenameKeepsMedia(s.disk, SaveTemp(b), Content(b), c);
  }

  lemma NoChange(d: Disk, c: BlobKey)
    ensures SameMedia(d, d, c)
  {}

  lemma StillStepKeepsMedia(sha: Bytes -> Bytes, s: State, e: Event, c: BlobKey)
    requires WellFormed(s.disk) && Enabled(sha, s, e) && !Moves(e) && !Touches(s, e, c)
    ensures SameMedia(s.disk, Apply(sha, s, e).disk, c)
  {}

  lemma StepKeepsMedia(sha: Bytes -> Bytes, s: State, e: Event, c: BlobKey)
    requires Inv(sha, s) && Enabled(sha, s, e) && !Touches(s, e, c)
    ensures SameMedia(s.disk, Apply(sha, s, e).disk, c)
  {
    hide Apply, Enabled, Touches, SameMedia;
    if Moves(e) {
      MoveKeepsMedia(sha, s, e, c);
    } else {
      StillStepKeepsMedia(sha, s, e, c);
    }
  }

  ghost predicate Untouched(sha: Bytes -> Bytes, s: State, es: seq<Event>, c: BlobKey)
    requires ValidRun(sha, s, es)
    decreases |es|
  {
    es == [] || (Untouched(sha, s, Front(es), c) && !Touches(Run(sha, s, Front(es)), Last(es), c))
  }

  /** No run of steps that do not touch a media type changes it, appends and commits of other blobs included. */
  lemma {:induction false} UntouchedMediaTypesStay(sha: Bytes -> Bytes, s: State, es: seq<Event>, c: BlobKey)
    requires Inv(sha, s) && ValidRun(sha, s, es) && Untouched(sha, s, es, c)
    ensures SameMedia(s.disk, Run(sha, s, es).disk, c)
    decreases |es|
  {
    hide Inv, Apply, Enabled, Touches;
    if es != [] {
      var before := Run(sha, s, Front(es));
      UntouchedMediaTypesStay(sha, s, Front(es), c);
      RunKeeps(sha, s, Front(es));
      StepKeepsMedia(sha, before, Last(es), c);
    }
  }

  /**
   Writing the media type of `b` changes that of another blob, whoever's, exactly when the two are one file
   and the text is new to it.
   */
  lemma WriteReachesExactly(sha: Bytes -> Bytes, s: State, b: BlobKey, bytes: Bytes, c: BlobKey)
    requires Inv(sha, s) && b != c && MediaType(c) in s.disk.names
    ensures var s' := Apply(sha, s, WriteMedia(b, bytes));
            && MediaType(c) in s'.disk.names
            && (Read(s'.disk, MediaType(c)) != Read(s.disk, MediaType(c))
                <==> SameFile(s.disk, MediaType(b), MediaType(c)) && Read(s.disk, MediaType(c)) != bytes)
  {
    MediaWriteReachesExactly(s.disk, b, c, bytes);
  }

  /** Which new pairs of media types a step makes one file. */
  predicate Links(d: Disk, e: Event, b: BlobKey, c: BlobKey)
  {
    && e.LinkMedia?
    && (|| (e.to == b && (e.from == c || SameFile(d, MediaType(e.from), MediaType(c))))
        || (e.to == c && (e.from == b || SameFile(d, MediaType(e.from), MediaType(b)))))
  }

  lemma StillStepLinksNothing(sha: Bytes -> Bytes, s: State, e: Event, b: BlobKey, c: BlobKey)
    requires WellFormed(s.disk) && Enabled(sha, s, e) && !Moves(e)
    requires SameFile(Apply(sha, s, e).disk, MediaType(b), MediaType(c))
    ensures SameFile(s.disk, MediaType(b), MediaType(c))
  {}

  lemma LinkMediaLinks(d: Disk, e: Event, b: BlobKey, c: BlobKey)
    requires e.LinkMedia? && MediaType(e.from) in d.names && b != c
    requires SameFile(Link(d, MediaType(e.from), MediaType(e.to)), MediaType(b), MediaType(c))
    ensures SameFile(d, MediaType(b), MediaType(c)) || Links(d, e, b, c)
  {}

  lemma MoveLinks(sha: Bytes -> Bytes, s: State, e: Event, b: BlobKey, c: BlobKey)
    requires WellFormed(s.disk) && Enabled(sha, s, e) && Moves(e) && b != c
    requires SameFile(Apply(sha, s, e).disk, MediaType(b), MediaType(c))
    ensures SameFile(s.disk, MediaType(b), MediaType(c)) || Links(s.disk, e, b, c)
  {
    if e.LinkMedia? {
      hide SameFile, Links;
      LinkMediaLinks(s.disk, e, b, c);
    }
  }

  lemma LinkStep(sha: Bytes -> Bytes, s: State, e: Event, b: BlobKey, c: BlobKey)
    requires Inv(sha, s) && Enabled(sha, s, e) && b != c
    requires SameFile(Apply(sha, s, e).disk, MediaType(b), MediaType(c))
    ensures SameFile(s.disk, MediaType(b), MediaType(c)) || Links(s.disk, e, b, c)
  {
    assert WellFormed(s.disk);
    hide Inv, Apply, Enabled, SameFile, Links;
    if Moves(e) {
      MoveLinks(sha, s, e, b, c);
    } else {
      StillStepLinksNothing(sha, s, e, b, c);
    }
  }

  /** Two media types are one file only if they were at the start, or a mount linked one of them since. */
  lemma {:induction false} LinksComeFromMounts(
    sha: Bytes -> Bytes, s: State, es: seq<Event>, b: BlobKey, c: BlobKey)
    requires Inv(sha, s) && ValidRun(sha, s, es) && b != c
    ensures SameFile(Run(sha, s, es).disk, MediaType(b), MediaType(c)) ==>
              || SameFile(s.disk, MediaType(b), MediaType(c))
              || exists i :: 0 <= i < |es| && es[i].LinkMedia? && es[i].to in {b, c}
    decreases |es|
  {
    hide Inv, Apply, Enabled;
    if es != [] && SameFile(Run(sha, s, es).disk, MediaType(b), MediaType(c)) {
      var before := Run(sha, s, Front(es));
      RunKeeps(sha, s, Front(es));
      LinksComeFromMounts(sha, s, Front(es), b, c);
      LinkStep(sha, before, Last(es), b, c);
      assert forall i :: 0 <= i < |Front(es)| ==> Front(es)[i] == es[i];
      assert es[|es| - 1] == Last(es);
    }
  }

  /** No media type in the repository is one file with one outside it. */
  ghost predicate Unlinked(d: Disk, r: Repository)
  {
    forall b: BlobKey, c: BlobKey :: b.repository != r && c.repository == r ==> !SameFile(d, MediaType(b), MediaType(c))
  }

  /** A step aimed at the repository's media types, or a mount from it. */
  predicate Concerns(e: Event, r: Repository)
  {
    match e
    case WriteMedia(b, _) => b.repository == r
    case LinkMedia(from, to) => from.repository == r || to.repository == r
    case DeleteFile(l) => l.MediaType? && l.blob.repository == r
    case _ => false
  }

  lemma UnlinkedStep(sha: Bytes -> Bytes, s: State, e: Event, r: Repository)
    requires Inv(sha, s) && Enabled(sha, s, e) && Unlinked(s.disk, r) && !Concerns(e, r)
    ensures Unlinked(Apply(sha, s, e).disk, r)
    ensures forall c: BlobKey :: c.repository == r ==> !Touches(s, e, c)
  {
    hide Inv, Apply, Enabled;
    var d := Apply(sha, s, e).disk;
    forall b: BlobKey, c: BlobKey | b.repository != r && c.repository == r
      ensures !SameFile(d, MediaType(b), MediaType(c))
    {
      if SameFile(d, MediaType(b), MediaType(c)) {
        LinkStep(sha, s, e, b, c);
      }
    }
  }

  /**
   A repository without links to others keeps its media types through any run not concerning it; so media
   types are independent exactly as far as no mount joined them.
   */
  lemma {:induction false} UnmountedMediaTypesAreIndependent(
    sha: Bytes -> Bytes, s: State, es: seq<Event>, r: Repository, c: BlobKey)
    requires Inv(sha, s) && ValidRun(sha, s, es) && Unlinked(s.disk, r) && c.repository == r
    requires forall i :: 0 <= i < |es| ==> !Concerns(es[i], r)
    ensures Unlinked(Run(sha, s, es).disk, r) && SameMedia(s.disk, Run(sha, s, es).disk, c)
    decreases |es|
  {
    hide Inv, Apply, Enabled, Touches, Unlinked, Concerns;
    if es != [] {
      var before := Run(sha, s, Front(es));
      UnmountedMediaTypesAreIndependent(sha, s, Front(es), r, c);
      RunKeeps(sha, s, Front(es));
      UnlinkedStep(sha, before, Last(es), r);
      StepKeepsMedia(sha, before, Last(es), c);
    }
  }

  /** One mount and one write that show it: the source repository's media type follows the destination's. */
  lemma MountSharesMediaTypes(sha: Bytes -> Bytes, s: State, from: BlobKey, to: BlobKey, bytes: Bytes)
    requires Inv(sha, s) && Enabled(sha, s, LinkMedia(from, to)) && Read(s.disk, MediaType(from)) != bytes
    ensures var mounted := Apply(sha, s, LinkMedia(from, to));
            && from != to && SameFile(mounted.disk, MediaType(to), MediaType(from))
            && Read(Apply(sha, mounted, WriteMedia(to, bytes)).disk, MediaType(from)) == bytes
  {
    var mounted := Apply(sha, s, LinkMedia(from, to));
    LinkMediaKeeps(sha, s, from, to);
    MediaWriteReachesExactly(mounted.disk, to, from, bytes);
  }
}
