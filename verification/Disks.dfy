/**
 The modelled disk: locations name inodes and inodes hold bytes, so that rename, append in place,
 truncate in place, delete and hard link all mean what they mean on a real file system.
 Folders are not modelled; creating one may fail.
 */
module Disks {
  import opened Basics
  import opened BlobPaths
  import Digests

  type Inode = nat

  /** `next` is above every inode ever used, so a new file never aliases an old one. */
  datatype Disk = Disk(names: map<Loc, Inode>, inodes: map<Inode, Bytes>, next: Inode)

  ghost predicate WellFormed(d: Disk)
  {
    && (forall l :: l in d.names ==> d.names[l] in d.inodes)
    && (forall i :: i in d.inodes ==> i < d.next)
  }

  function Held(d: Disk, i: Inode): Bytes
  {
    if i in d.inodes then d.inodes[i] else []
  }

  function Read(d: Disk, l: Loc): Bytes
    requires l in d.names
  {
    Held(d, d.names[l])
  }

  /** A missing file reads as no bytes at all. */
  function ReadOrEmpty(d: Disk, l: Loc): Bytes
  {
    if l in d.names then Read(d, l) else []
  }

  function Unlink(d: Disk, l: Loc): Disk
  {
    d.(names := d.names - {l})
  }

  /** Open for creating: an existing file stays as it is. */
  function Touch(d: Disk, l: Loc): Disk
  {
    if l in d.names then d
    else Disk(d.names[l := d.next], d.inodes[d.next := []], d.next + 1)
  }

  /** Write through an open handle, wherever (and whether) the inode is linked. */
  function WriteInode(d: Disk, i: Inode, bytes: Bytes): Disk
  {
    d.(inodes := d.inodes[i := Held(d, i) + bytes])
  }

  function Append(d: Disk, l: Loc, bytes: Bytes): Disk
  {
    var touched := Touch(d, l);
    WriteInode(touched, touched.names[l], bytes)
  }

  /** Create or truncate in place, then write: every hard link sees the new bytes. */
  function Overwrite(d: Disk, l: Loc, bytes: Bytes): Disk
  {
    var touched := Touch(d, l);
    touched.(inodes := touched.inodes[touched.names[l] := bytes])
  }

  /** POSIX rename: replaces the target; does nothing if both already name one inode. */
  function Rename(d: Disk, from: Loc, to: Loc): Disk
    requires from in d.names
  {
    if to in d.names && d.names[to] == d.names[from] then d
    else d.(names := d.names[to := d.names[from]] - {from})
  }

  function Link(d: Disk, from: Loc, to: Loc): Disk
    requires from in d.names
  {
    d.(names := d.names[to := d.names[from]])
  }

  /** A digest claims these bytes. */
  ghost predicate Matches(sha: Bytes -> Bytes, digest: Digests.Digest, bytes: Bytes)
  {
    Digests.Valid(digest) && Digests.AsBytes(digest) == sha(bytes)
  }

  /** Two files may share an inode only if both are content of one digest or both are its media type. */
  ghost predicate MayShare(a: Loc, b: Loc)
  {
    || (a.Content? && b.Content? && a.blob.digest == b.blob.digest)
    || (a.MediaType? && b.MediaType? && a.blob.digest == b.blob.digest)
  }

  ghost predicate SharesOnlyAlike(d: Disk)
  {
    forall a, b :: a in d.names && b in d.names && a != b && d.names[a] == d.names[b] ==> MayShare(a, b)
  }

  /** Every stored blob has the bytes its path promises. */
  ghost predicate ContentMatches(sha: Bytes -> Bytes, d: Disk)
  {
    forall b :: Content(b) in d.names ==> Matches(sha, b.digest, Read(d, Content(b)))
  }

  ghost predicate Sound(sha: Bytes -> Bytes, d: Disk)
  {
    WellFormed(d) && SharesOnlyAlike(d) && ContentMatches(sha, d)
  }

  /** `d'` keeps what every stored blob `d` holds, except at the locations in `changed`. */
  ghost predicate KeepsContent(d: Disk, d': Disk, changed: set<Loc>)
  {
    forall l: Loc :: l.Content? && l !in changed ==>
      (l in d.names <==> l in d'.names) && (l in d.names ==> Read(d, l) == Read(d', l))
  }

  lemma UnlinkSound(sha: Bytes -> Bytes, d: Disk, l: Loc)
    requires Sound(sha, d)
    ensures Sound(sha, Unlink(d, l)) && KeepsContent(d, Unlink(d, l), {l})
  {}

  lemma AppendTempSound(sha: Bytes -> Bytes, d: Disk, l: Loc, bytes: Bytes)
    requires Sound(sha, d) && (l.UploadTemp? || l.SaveTemp?)
    ensures Sound(sha, Append(d, l, bytes)) && KeepsContent(d, Append(d, l, bytes), {})
    ensures l in Append(d, l, bytes).names
    ensures Read(Append(d, l, bytes), l) == ReadOrEmpty(d, l) + bytes
  {
    hide Matches;
    var d' := Append(d, l, bytes);
    assert forall a :: a in d.names && a != l ==> d'.names[a] != d'.names[l];
  }

  /** Writing through a handle whose inode is linked nowhere but, perhaps, at one temporary file. */
  lemma WriteHandleSound(sha: Bytes -> Bytes, d: Disk, i: Inode, l: Loc, bytes: Bytes)
    requires Sound(sha, d) && i in d.inodes && (l.UploadTemp? || l.SaveTemp?)
    requires forall a :: a in d.names && d.names[a] == i ==> a == l
    ensures Sound(sha, WriteInode(d, i, bytes)) && KeepsContent(d, WriteInode(d, i, bytes), {})
  {
    hide Matches;
  }

  lemma OverwriteMediaSound(sha: Bytes -> Bytes, d: Disk, b: BlobKey, bytes: Bytes)
    requires Sound(sha, d)
    ensures var d' := Overwrite(d, MediaType(b), bytes);
            Sound(sha, d') && KeepsContent(d, d', {}) && MediaType(b) in d'.names && Read(d', MediaType(b)) == bytes
  {
    hide Matches;
    var d' := Overwrite(d, MediaType(b), bytes);
    assert forall a: Loc :: a in d.names && !a.MediaType? ==> d'.names[a] != d'.names[MediaType(b)];
  }

  /** Two names of one file. */
  predicate SameFile(d: Disk, a: Loc, b: Loc)
  {
    a in d.names && b in d.names && d.names[a] == d.names[b]
  }

  /** Writing one media type changes another blob's exactly when they are one file (and the text is new to it). */
  lemma MediaWriteReachesExactly(d: Disk, b: BlobKey, c: BlobKey, bytes: Bytes)
    requires WellFormed(d) && b != c && MediaType(c) in d.names
    ensures var d' := Overwrite(d, MediaType(b), bytes);
            && MediaType(c) in d'.names
            && Read(d', MediaType(c)) ==
               (if SameFile(d, MediaType(b), MediaType(c)) then bytes else Read(d, MediaType(c)))
            && (Read(d, MediaType(c)) != bytes ==>
                 (Read(d', MediaType(c)) != Read(d, MediaType(c)) <==> SameFile(d, MediaType(b), MediaType(c))))
  {}

  /** Publishing a private file whose bytes match keeps the disk sound and changes that blob only. */
  lemma PublishSound(sha: Bytes -> Bytes, d: Disk, from: Loc, b: BlobKey)
    requires Sound(sha, d) && from in d.names && (from.UploadTemp? || from.SaveTemp?)
    requires Matches(sha, b.digest, Read(d, from))
    ensures var d' := Rename(d, from, Content(b));
            Sound(sha, d') && KeepsContent(d, d', {Content(b)}) && from !in d'.names
            && Content(b) in d'.names && Read(d', Content(b)) == Read(d, from)
  {
    hide Matches;
    assert forall a :: a in d.names && a != from ==> d.names[a] != d.names[from];
  }

  lemma LinkContentSound(sha: Bytes -> Bytes, d: Disk, from: BlobKey, to: BlobKey)
    requires Sound(sha, d) && Content(from) in d.names && from.digest == to.digest
    ensures var d' := Link(d, Content(from), Content(to));
            Sound(sha, d') && KeepsContent(d, d', {Content(to)})
  {}

  lemma LinkMediaSound(sha: Bytes -> Bytes, d: Disk, from: BlobKey, to: BlobKey)
    requires Sound(sha, d) && MediaType(from) in d.names && from.digest == to.digest
    ensures var d' := Link(d, MediaType(from), MediaType(to));
            Sound(sha, d') && KeepsContent(d, d', {})
  {}
}
