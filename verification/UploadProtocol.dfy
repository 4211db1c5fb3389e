/**
 The registry's blob files under any interleaving of its operations.

 A state holds the disk, the uploader's table and every call in flight. An event is one step of one
 call, with at most one disk operation: what runs under the uploader's mutex, what runs outside it,
 and every way such a step can fail part-way. A run is a list of events, so what holds after every
 run holds in every state the registry can reach.
 */
module UploadProtocol {
  import opened Basics
  import opened BlobPaths
  import opened Disks
  import opened Repositories
  import opened Sessions

  /** A write_chunk call between taking the hasher and putting it back; `pending` is a queued append. */
  datatype Writer =
    Writer(key: UploadKey, hasher: Bytes, start: nat, written: nat, pending: Option<Bytes>)

  /** A queued append whose caller has gone away; it may still run. */
  datatype LateAppend = LateAppend(key: UploadKey, chunk: Bytes)

  /** A save call: an open handle on its temporary file, what its hasher absorbed, no failed write yet. */
  datatype Saver = Saver(inode: Inode, hasher: Bytes, intact: bool)

  /**
   `commits` are complete calls between digest check and rename, with the blob they claim. `acked` is
   history: the bodies of the write_chunk calls that returned Ok, for every upload ever started.
   */
  datatype State = State(
    disk: Disk,
    table: Table,
    poisoned: bool,
    writers: map<nat, Writer>,
    late: map<nat, LateAppend>,
    commits: map<UploadKey, BlobKey>,
    savers: map<BlobKey, Saver>,
    acked: map<UploadKey, seq<Bytes>>)

  /** How an append ends: done, failed before opening the file, or failed having written a prefix. */
  datatype Outcome = Done | NotOpened | CutShort(written: nat)

  function Reached(chunk: Bytes, o: Outcome): Bytes
  {
    if o.CutShort? && o.written < |chunk| then chunk[..o.written] else chunk
  }

  function AppendEffect(d: Disk, l: Loc, chunk: Bytes, o: Outcome): Disk
  {
    if o.NotOpened? then d else Append(d, l, Reached(chunk, o))
  }

  datatype Event =
    | Start(key: UploadKey)
    | Take(id: nat, key: UploadKey, expected: nat)
    | Spawn(id: nat, chunk: Bytes)
    | RunAppend(id: nat, outcome: Outcome)
    | Leave(id: nat)
    | RunLate(id: nat, outcome: Outcome)
    | Put(id: nat)
    | Seal(key: UploadKey, blob: BlobKey)
    | Discard(key: UploadKey, deleted: bool)
    | Panic(key: UploadKey, deleted: bool)
    | Publish(key: UploadKey)
    | GiveUp(key: UploadKey, deleted: bool)
    | PurgeFile(key: UploadKey)
    | DeleteFile(l: Loc)
    | WriteMedia(blob: BlobKey, bytes: Bytes)
    | LinkContent(from: BlobKey, to: BlobKey)
    | LinkMedia(from: BlobKey, to: BlobKey)
    | SaveOpen(blob: BlobKey)
    | SaveWrite(blob: BlobKey, chunk: Bytes, outcome: Outcome)
    | SavePublish(blob: BlobKey)
    | SaveEnd(blob: BlobKey, deleted: bool)

  ghost predicate HasherIn(t: Table, k: UploadKey)
  {
    Lookup(t, k).Some? && Lookup(t, k).value.hasher.Some?
  }

  ghost predicate HasherOut(t: Table, k: UploadKey)
  {
    Lookup(t, k).Some? && Lookup(t, k).value.hasher.None?
  }

  /**
   When a step can happen. Steps under the mutex need it unpoisoned; new UUIDs are fresh; the loop of
   write_chunk ends at the first empty portion, so an append always has something to append; saves run
   one at a time per blob, and a save finds no temporary file left over by an earlier one.
   */
  ghost predicate Enabled(sha: Bytes -> Bytes, s: State, e: Event)
  {
    match e
    case Start(k) => !s.poisoned && k !in s.acked && UploadTemp(k) !in s.disk.names
    case Take(id, k, expected) =>
      && !s.poisoned && id !in s.writers && id !in s.late
      && HasherIn(s.table, k) && Lookup(s.table, k).value.offset == expected
    case Spawn(id, chunk) => id in s.writers && s.writers[id].pending.None? && chunk != []
    case RunAppend(id, _) => id in s.writers && s.writers[id].pending.Some?
    case Leave(id) => id in s.writers
    case RunLate(id, _) => id in s.late
    case Put(id) => !s.poisoned && id in s.writers && s.writers[id].pending.None?
    case Seal(k, b) =>
      && !s.poisoned && HasherIn(s.table, k) && b.repository == Local(k.repository) && b.kind == Blob
      && Matches(sha, b.digest, Lookup(s.table, k).value.hasher.value)
    case Discard(k, _) => !s.poisoned && Lookup(s.table, k).Some?
    case Panic(k, _) => !s.poisoned && HasherOut(s.table, k)
    case Publish(k) => k in s.commits && UploadTemp(k) in s.disk.names
    case GiveUp(k, _) => k in s.commits
    case PurgeFile(k) => !s.poisoned && Lookup(s.table, k).None?
    case DeleteFile(l) => !l.UploadTemp?
    case WriteMedia(_, _) => true
    case LinkContent(from, to) =>
      Content(from) in s.disk.names && Content(to) !in s.disk.names && from.digest == to.digest
    case LinkMedia(from, to) =>
      MediaType(from) in s.disk.names && MediaType(to) !in s.disk.names && from.digest == to.digest
    case SaveOpen(b) => b !in s.savers && SaveTemp(b) !in s.disk.names
    case SaveWrite(b, _, _) => b in s.savers && s.savers[b].intact
    case SavePublish(b) =>
      && b in s.savers && s.savers[b].intact && SaveTemp(b) in s.disk.names
      && Matches(sha, b.digest, s.savers[b].hasher)
    case SaveEnd(b, _) => b in s.savers
  }

  /** `Discard` is abort, or a complete that stops early; `Panic` is a complete that finds the hasher out. */
  function Apply(sha: Bytes -> Bytes, s: State, e: Event): State
    requires Enabled(sha, s, e)
  {
    match e
    case Start(k) => s.(table := Insert(s.table, k, Upload(Some([]), 0)), acked := s.acked[k := []])
    case Take(id, k, _) =>
      var u := Lookup(s.table, k).value;
      s.(table := Insert(s.table, k, u.(hasher := None)),
         writers := s.writers[id := Writer(k, u.hasher.value, u.offset, 0, None)])
    case Spawn(id, chunk) =>
      var w := s.writers[id];
      s.(writers := s.writers[id := w.(hasher := w.hasher + chunk, pending := Some(chunk))])
    case RunAppend(id, outcome) =>
      var w := s.writers[id];
      var w' := w.(written := w.written + |w.pending.value|, pending := None);
      s.(disk := AppendEffect(s.disk, UploadTemp(w.key), w.pending.value, outcome),
         writers := if outcome.Done? then s.writers[id := w'] else s.writers - {id})
    case Leave(id) =>
      var w := s.writers[id];
      s.(writers := s.writers - {id},
         late := if w.pending.Some? then s.late[id := LateAppend(w.key, w.pending.value)] else s.late)
    case RunLate(id, outcome) =>
      var a := s.late[id];
      s.(disk := AppendEffect(s.disk, UploadTemp(a.key), a.chunk, outcome), late := s.late - {id})
    case Put(id) =>
      var w := s.writers[id];
      var s' := s.(writers := s.writers - {id});
      if Lookup(s.table, w.key).None? then
        s'
      else
        s'.(table := Insert(s.table, w.key, Upload(Some(w.hasher), w.start + w.written)),
            acked := s.acked[w.key := AckedBy(s, w.key) + [Body(w)]])
    case Seal(k, b) => s.(table := Remove(s.table, k), commits := s.commits[k := b])
    case Discard(k, deleted) =>
      s.(table := Remove(s.table, k), disk := UnlinkIf(deleted, s.disk, UploadTemp(k)))
    case Panic(k, deleted) =>
      s.(table := Remove(s.table, k), disk := UnlinkIf(deleted, s.disk, UploadTemp(k)), poisoned := true)
    case Publish(k) =>
      s.(disk := Rename(s.disk, UploadTemp(k), Content(s.commits[k])), commits := s.commits - {k})
    case GiveUp(k, deleted) =>
      s.(disk := UnlinkIf(deleted, s.disk, UploadTemp(k)), commits := s.commits - {k})
    case PurgeFile(k) => s.(disk := Unlink(s.disk, UploadTemp(k)))
    case DeleteFile(l) => s.(disk := Unlink(s.disk, l))
    case WriteMedia(b, bytes) => s.(disk := Overwrite(s.disk, MediaType(b), bytes))
    case LinkContent(from, to) => s.(disk := Link(s.disk, Content(from), Content(to)))
    case LinkMedia(from, to) => s.(disk := Link(s.disk, MediaType(from), MediaType(to)))
    case SaveOpen(b) =>
      var d := Touch(s.disk, SaveTemp(b));
      s.(disk := d, savers := s.savers[b := Saver(d.names[SaveTemp(b)], [], true)])
    case SaveWrite(b, chunk, outcome) =>
      var v := s.savers[b];
      s.(disk := if outcome.NotOpened? then s.disk else WriteInode(s.disk, v.inode, Reached(chunk, outcome)),
         savers := s.savers[b := Saver(v.inode, v.hasher + chunk, outcome.Done?)])
    case SavePublish(b) =>
      s.(disk := Rename(s.disk, SaveTemp(b), Content(b)), savers := s.savers - {b})
    case SaveEnd(b, deleted) =>
      s.(disk := UnlinkIf(deleted, s.disk, SaveTemp(b)), savers := s.savers - {b})
  }

  function UnlinkIf(deleted: bool, d: Disk, l: Loc): Disk
  {
    if deleted then Unlink(d, l) else d
  }

  function AckedBy(s: State, k: UploadKey): seq<Bytes>
  {
    if k in s.acked then s.acked[k] else []
  }

  /** What this call alone has absorbed. */
  function Body(w: Writer): Bytes
  {
    if w.start <= |w.hasher| then w.hasher[w.start..] else []
  }

  function PendingOf(w: Writer): Bytes
  {
    if w.pending.Some? then w.pending.value else []
  }

  ghost predicate NobodyWrites(s: State, k: UploadKey)
  {
    && (forall i :: i in s.writers ==> s.writers[i].key != k)
    && (forall i :: i in s.late ==> s.late[i].key != k)
  }

  /**
   The upload's session. While it holds the hasher, the hasher has absorbed exactly the temporary file,
   which exists only once there was a byte to append; all of it is acknowledged, and nobody writes.
   */
  ghost predicate UploadOk(s: State, k: UploadKey)
  {
    var u := Lookup(s.table, k);
    u.Some? ==>
      && k in s.acked && k !in s.commits
      && u.value.offset == |Concat(s.acked[k])|
      && (u.value.hasher.Some? ==>
           && u.value.hasher.value == Concat(s.acked[k]) == ReadOrEmpty(s.disk, UploadTemp(k))
           && (UploadTemp(k) in s.disk.names <==> u.value.hasher.value != [])
           && NobodyWrites(s, k))
  }

  /** A writer is alone on its upload; while the upload lives, the temporary file keeps step with it. */
  ghost predicate WriterOk(s: State, i: nat)
    requires i in s.writers
  {
    var w := s.writers[i];
    && w.key in s.acked && w.key !in s.commits
    && (forall j :: j in s.writers && s.writers[j].key == w.key ==> j == i)
    && (forall j :: j in s.late ==> s.late[j].key != w.key)
    && w.start + w.written + |PendingOf(w)| == |w.hasher| && w.pending != Some([])
    && (Lookup(s.table, w.key).Some? ==>
         && HasherOut(s.table, w.key)
         && w.hasher[..w.start] == Concat(s.acked[w.key])
         && ReadOrEmpty(s.disk, UploadTemp(w.key)) + PendingOf(w) == w.hasher
         && (UploadTemp(w.key) in s.disk.names ==> Read(s.disk, UploadTemp(w.key)) != []))
  }

  /** An append that outlives its call belongs to an upload that can never be committed. */
  ghost predicate LateOk(s: State, i: nat)
    requires i in s.late
  {
    var k := s.late[i].key;
    && k in s.acked && k !in s.commits && !HasherIn(s.table, k)
    && (forall j :: j in s.late && s.late[j].key == k ==> j == i)
  }

  /** A commit's temporary file, if there is one, is what was acknowledged and what the digest claims. */
  ghost predicate CommitOk(sha: Bytes -> Bytes, s: State, k: UploadKey)
    requires k in s.commits
  {
    && k in s.acked && Lookup(s.table, k).None? && NobodyWrites(s, k)
    && s.commits[k].repository == Local(k.repository) && s.commits[k].kind == Blob
    && Matches(sha, s.commits[k].digest, Concat(s.acked[k]))
    && (UploadTemp(k) in s.disk.names ==> Read(s.disk, UploadTemp(k)) == Concat(s.acked[k]) != [])
  }

  /** All that is known about one upload, dead or alive. */
  ghost predicate KeyOk(sha: Bytes -> Bytes, s: State, k: UploadKey)
  {
    && UploadOk(s, k)
    && (forall i :: i in s.writers && s.writers[i].key == k ==> WriterOk(s, i))
    && (forall i :: i in s.late && s.late[i].key == k ==> LateOk(s, i))
    && (k in s.commits ==> CommitOk(sha, s, k))
  }

  /** A saver's handle is linked at its temporary file or nowhere, and holds what its hasher absorbed. */
  ghost predicate SaverOk(d: Disk, savers: map<BlobKey, Saver>, b: BlobKey)
    requires b in savers
  {
    var v := savers[b];
    && v.inode in d.inodes
    && (forall l :: l in d.names && d.names[l] == v.inode ==> l == SaveTemp(b))
    && (SaveTemp(b) in d.names ==> d.names[SaveTemp(b)] == v.inode)
    && (forall c :: c in savers && savers[c].inode == v.inode ==> c == b)
    && (v.intact ==> Held(d, v.inode) == v.hasher)
  }

  ghost predicate SaversOk(d: Disk, savers: map<BlobKey, Saver>)
  {
    forall b :: b in savers ==> SaverOk(d, savers, b)
  }

  ghost predicate Inv(sha: Bytes -> Bytes, s: State)
  {
    && Sound(sha, s.disk)
    && NoEmptyEntries(s.table)
    && s.writers.Keys !! s.late.Keys
    && (forall k :: KeyOk(sha, s, k))
    && SaversOk(s.disk, s.savers)
  }
}
