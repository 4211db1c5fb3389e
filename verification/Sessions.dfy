/** The uploader's table of live uploads: a map of repositories to maps of UUIDs. */
module Sessions {
  import opened Basics
  import opened BlobPaths
  import Names

  /** A hasher is the byte sequence it has absorbed; it is absent while a chunk is being written. */
  datatype Upload = Upload(hasher: Option<Bytes>, offset: nat)

  type Table = map<Names.Name, map<string, Upload>>

  function Lookup(t: Table, k: UploadKey): Option<Upload>
  {
    if k.repository in t && k.uuid in t[k.repository] then Some(t[k.repository][k.uuid]) else None
  }

  /** Repositories without a live upload have no entry. */
  ghost predicate NoEmptyEntries(t: Table)
  {
    forall r :: r in t ==> t[r] != map[]
  }

  /** The entry is made on demand. */
  function Insert(t: Table, k: UploadKey, u: Upload): (t': Table)
    ensures forall j :: Lookup(t', j) == if j == k then Some(u) else Lookup(t, j)
    ensures NoEmptyEntries(t) ==> NoEmptyEntries(t')
  {
    var uploads := if k.repository in t then t[k.repository] else map[];
    assert k.uuid in uploads[k.uuid := u];
    t[k.repository := uploads[k.uuid := u]]
  }

  /** The entry goes with its last upload. */
  function Remove(t: Table, k: UploadKey): (t': Table)
    requires Lookup(t, k).Some?
    ensures forall j :: Lookup(t', j) == if j == k then None else Lookup(t, j)
    ensures NoEmptyEntries(t) ==> NoEmptyEntries(t')
  {
    var uploads := t[k.repository] - {k.uuid};
    if uploads == map[] then
      assert forall u :: u in t[k.repository] ==> u == k.uuid by {
        assert forall u :: u in t[k.repository] && u != k.uuid ==> u in uploads;
      }
      t - {k.repository}
    else
      t[k.repository := uploads]
  }
}
