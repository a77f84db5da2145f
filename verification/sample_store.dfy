/** The artifact store (cad2ml/storage/base.py): keys in sample, staging and superseded directories,
    and the operations on them. A directory can exist and be empty. */
module SampleStore {
  import opened Wrappers
  import opened JobStates

  /** The hash of source, configuration and versions, taken as injective. */
  datatype SampleId = SampleId(sha: nat, config: nat)

  datatype Status = Completed | SampleRejected | SampleQuarantined | SampleFailed

  datatype Manifest = Manifest(sample: SampleId, status: Status, artifacts: set<nat>, code: Option<ErrorCode>)

  datatype Dir =
    Staging(sample: SampleId, run: nat) | Samples(sample: SampleId) | Superseded(sample: SampleId, stamp: nat)

  datatype Rel = ManifestFile | ConfigFile | Artifact(name: nat)

  datatype Key = In(dir: Dir, rel: Rel) | Source(sha: nat) | Audit(sample: SampleId, stamp: nat, code: ErrorCode)

  datatype Content = SourceBytes(sha: nat) | Data(n: nat) | Config(config: nat) | Record(m: Manifest)

  datatype Disk = Disk(files: map<Key, Content>, dirs: set<Dir>)

  predicate Under(k: Key, dir: Dir) {
    k.In? && k.dir == dir
  }

  /** Writing may fail before or after the parent directory is made; the file itself is atomic. */
  datatype PutFault = PutOk | BeforeDir | AfterDir

  function Put(d: Disk, k: Key, c: Content, f: PutFault): Disk {
    Disk(if f == PutOk then d.files[k := c] else d.files,
         if f != BeforeDir && k.In? then d.dirs + {k.dir} else d.dirs)
  }

  function Delete(d: Disk, dir: Dir): Disk {
    Disk(map k | k in d.files && !Under(k, dir) :: d.files[k], d.dirs - {dir})
  }

  function Rels(d: Disk, dir: Dir): set<Rel> {
    set k | k in d.files && Under(k, dir) :: k.rel
  }

  /** Renaming a directory. */
  function Move(d: Disk, src: Dir, dst: Dir): Disk {
    Disk(Delete(d, src).files + map r | r in Rels(d, src) :: In(dst, r) := d.files[In(src, r)],
         d.dirs - {src} + {dst})
  }

  /** `promote_prefix`: if the destination exists, the source is thrown away. */
  function Promote(d: Disk, src: Dir, dst: Dir): Disk {
    if dst in d.dirs then Delete(d, src) else Move(d, src, dst)
  }

  // ---- what the operations do, key by key -------------------------------------------------

  function At(d: Disk, k: Key): Option<Content> {
    if k in d.files then Some(d.files[k]) else None
  }

  /** Renaming loses nothing and invents nothing. */
  lemma MoveAt(d: Disk, src: Dir, dst: Dir, x: Key)
    requires src != dst && forall k :: k in d.files ==> !Under(k, dst)
    ensures At(Move(d, src, dst), x) ==
            if Under(x, dst) then At(d, In(src, x.rel)) else if Under(x, src) then None else At(d, x)
  {
    if Under(x, dst) {
      assert x == In(dst, x.rel);
      if In(src, x.rel) in d.files { assert x.rel in Rels(d, src); }
      if x.rel in Rels(d, src) {
        var k :| k in d.files && Under(k, src) && k.rel == x.rel;
        assert k == In(src, x.rel);
      }
    }
  }

  // ---- the store --------------------------------------------------------------------------

  class LocalFSStore {
    var files: map<Key, Content>
    var dirs: set<Dir>

    ghost function Contents(): Disk
      reads this
    {
      Disk(files, dirs)
    }

    constructor ()
      ensures Contents() == Disk(map[], {})
    {
      files, dirs := map[], {};
    }

    predicate Exists(k: Key)
      reads this
    {
      k in files
    }

    predicate DirExists(dir: Dir)
      reads this
    {
      dir in dirs
    }

    method PutBytes(k: Key, c: Content, f: PutFault) returns (ok: bool)
      modifies this
      ensures Contents() == Put(old(Contents()), k, c, f) && ok == (f == PutOk)
    {
      if f == BeforeDir { return false; }
      if k.In? { dirs := dirs + {k.dir}; }
      if f == AfterDir { return false; }
      files := files[k := c];
      ok := true;
    }

    /** Removing a tree, file by file. */
    method DeletePrefix(dir: Dir)
      modifies this
      ensures Contents() == Delete(old(Contents()), dir)
    {
      var rest := files.Keys;
      ghost var before := Contents();
      while rest != {}
        invariant rest <= before.files.Keys && dirs == before.dirs
        invariant forall k :: k in files <==> k in before.files && (k in rest || !Under(k, dir))
        invariant forall k :: k in files ==> files[k] == before.files[k]
        decreases rest
      {
        var k :| k in rest;
        rest := rest - {k};
        if Under(k, dir) { files := map x | x in files && x != k :: files[x]; }
      }
      dirs := dirs - {dir};
      assert files == Delete(before, dir).files;
    }

    method PromotePrefix(src: Dir, dst: Dir)
      modifies this
      ensures Contents() == Promote(old(Contents()), src, dst)
    {
      if dst in dirs {
        DeletePrefix(src);
        return;
      }
      var d := Move(Disk(files, dirs), src, dst);
      files, dirs := d.files, d.dirs;
    }
  }
}
