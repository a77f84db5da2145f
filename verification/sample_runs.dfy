/** What any sequence of `process_source` calls keeps true of the store (cad2ml/pipeline.py). */
module SampleRuns {
  import opened Wrappers
  import opened JobStates
  import opened SampleStore
  import opened SampleProcess

  // ---- the invariant ----------------------------------------------------------------------

  /** Everything a completed manifest lists lies beside it. */
  ghost predicate HasAll(d: Disk, dir: Dir, m: Manifest) {
    In(dir, ConfigFile) in d.files && forall a :: a in m.artifacts ==> In(dir, Artifact(a)) in d.files
  }

  ghost predicate Readable(d: Disk, dir: Dir) {
    match At(d, In(dir, ManifestFile))
    case Some(Record(m)) => m.sample == dir.sample && (m.status == Status.Completed ==> HasAll(d, dir, m))
    case _ => false
  }

  /** Files lie in directories that exist; no staging directory is left; anything in a sample or
      superseded directory has a readable manifest, complete if it says so. */
  ghost predicate DirOk(d: Disk, dir: Dir) {
    && (forall rel :: In(dir, rel) in d.files ==> dir in d.dirs)
    && (dir.Staging? ==> dir !in d.dirs)
    && (!dir.Staging? ==> forall rel :: In(dir, rel) in d.files ==> Readable(d, dir))
  }

  ghost predicate SourceOk(d: Disk, sha: nat) {
    Source(sha) in d.files ==> d.files[Source(sha)] == SourceBytes(sha)
  }

  /** The invariant, but for one directory that is being worked in. */
  ghost predicate InvBut(d: Disk, st: Dir) {
    && (forall dir {:trigger DirOk(d, dir)} :: dir != st ==> DirOk(d, dir))
    && (forall rel :: In(st, rel) in d.files ==> st in d.dirs)
    && (forall sha {:trigger SourceOk(d, sha)} :: SourceOk(d, sha))
  }

  ghost predicate Inv(d: Disk) {
    && (forall dir {:trigger DirOk(d, dir)} :: DirOk(d, dir))
    && (forall sha {:trigger SourceOk(d, sha)} :: SourceOk(d, sha))
  }

  // ---- frames -----------------------------------------------------------------------------

  /** `dir` looks the same on both disks. */
  ghost predicate SameDir(d: Disk, d': Disk, dir: Dir) {
    (forall rel :: At(d', In(dir, rel)) == At(d, In(dir, rel))) && (dir in d'.dirs <==> dir in d.dirs)
  }

  lemma MoveFrame(d: Disk, src: Dir, dst: Dir, dir: Dir)
    requires src != dst && dir != src && dir != dst && forall k :: k in d.files ==> !Under(k, dst)
    ensures SameDir(d, Move(d, src, dst), dir)
  {
  }

  lemma SourcesKept(d: Disk, d': Disk)
    requires forall sha :: At(d', Source(sha)) == At(d, Source(sha)) || At(d', Source(sha)) == Some(SourceBytes(sha))
    requires forall sha {:trigger SourceOk(d, sha)} :: SourceOk(d, sha)
    ensures forall sha {:trigger SourceOk(d', sha)} :: SourceOk(d', sha)
  {
    forall sha ensures SourceOk(d', sha) {
      assert SourceOk(d, sha);
      assert At(d', Source(sha)) == At(d, Source(sha)) || At(d', Source(sha)) == Some(SourceBytes(sha));
    }
  }

  /** Removing a directory restores the invariant if only that directory was out of order. */
  lemma DeleteRestores(d: Disk, st: Dir)
    requires InvBut(d, st)
    ensures Inv(Delete(d, st))
  {
    forall dir ensures DirOk(Delete(d, st), dir) {
      if dir != st {
        assert DirOk(d, dir);
      } else {
        forall rel ensures In(st, rel) !in Delete(d, st).files {}
      }
    }
    forall sha ensures At(Delete(d, st), Source(sha)) == At(d, Source(sha)) {}
    SourcesKept(d, Delete(d, st));
  }

  lemma NoFilesBelow(d: Disk, st: Dir, dir: Dir)
    requires InvBut(d, st) && dir !in d.dirs
    ensures forall k :: k in d.files ==> !Under(k, dir)
  {
    assert dir != st ==> DirOk(d, dir);
    assert forall rel :: In(dir, rel) !in d.files;
    forall k | k in d.files ensures !Under(k, dir) {
      if k.In? { assert k == In(k.dir, k.rel); }
    }
  }

  /** `dst` holds after a move what `src` held. */
  lemma MoveCarries(d: Disk, st: Dir, src: Dir, dst: Dir)
    requires InvBut(d, st) && src != dst && dst !in d.dirs && !dst.Staging? && src.sample == dst.sample
    requires forall rel :: In(src, rel) in d.files ==> Readable(d, src)
    ensures DirOk(Move(d, src, dst), dst)
    ensures forall rel ::
              At(Move(d, src, dst), In(dst, rel)) == At(d, In(src, rel)) && At(Move(d, src, dst), In(src, rel)) == None
    ensures forall sha :: At(Move(d, src, dst), Source(sha)) == At(d, Source(sha))
  {
    NoFilesBelow(d, st, dst);
    var d' := Move(d, src, dst);
    forall rel ensures At(d', In(dst, rel)) == At(d, In(src, rel)) && At(d', In(src, rel)) == None {
      MoveAt(d, src, dst, In(dst, rel));
      MoveAt(d, src, dst, In(src, rel));
    }
    forall sha ensures At(d', Source(sha)) == At(d, Source(sha)) { MoveAt(d, src, dst, Source(sha)); }
    forall rel ensures In(dst, rel) in d'.files <==> In(src, rel) in d.files {
      assert At(d', In(dst, rel)) == At(d, In(src, rel));
    }
    forall rel | In(dst, rel) in d'.files ensures Readable(d', dst) {
      assert At(d', In(dst, ManifestFile)) == At(d, In(src, ManifestFile));
      assert In(src, rel) in d.files;
      var m := At(d, In(src, ManifestFile)).value.m;
      if m.status == Status.Completed {
        forall a | a in m.artifacts ensures In(dst, Artifact(a)) in d'.files { assert In(src, Artifact(a)) in d.files; }
      }
    }
  }

  // ---- failures ---------------------------------------------------------------------------

  /** A failure record is a whole sample of its own. */
  lemma FinalizeKeeps(d: Disk, c: Call, code: ErrorCode)
    requires Inv(d)
    ensures Inv(Finalize(d, c, code).disk)
  {
    var d' := Finalize(d, c, code).disk;
    var k := if code in ENVIRONMENT_SENSITIVE then Audit(c.sample, c.stamp, code) else ManifestKey(c.sample);
    forall dir ensures DirOk(d', dir) {
      assert DirOk(d, dir);
      if Retryable(code) || !Under(k, dir) {
      } else if c.putRecord != PutOk {
        assert d'.files == d.files;
      } else {
        assert At(d', In(dir, ManifestFile)) == Some(Record(FailureManifest(c, code)));
        assert StatusFor(code) != Status.Completed;
      }
    }
    forall sha ensures At(d', Source(sha)) == At(d, Source(sha)) {}
    SourcesKept(d, d');
  }

  // ---- work in the staging directory ------------------------------------------------------

  lemma InvIsInvBut(d: Disk, st: Dir)
    requires Inv(d)
    ensures InvBut(d, st)
  {
    assert DirOk(d, st);
  }

  /** Writing in the staging directory disturbs no other. */
  lemma StagingPut(d: Disk, c: Call, rel: Rel, content: Content, f: PutFault)
    requires InvBut(d, StagingOf(c))
    ensures InvBut(Put(d, In(StagingOf(c), rel), content, f), StagingOf(c))
  {
    var st := StagingOf(c);
    var d' := Put(d, In(st, rel), content, f);
    forall dir | dir != st ensures DirOk(d', dir) {
      assert DirOk(d, dir);
    }
    forall sha ensures At(d', Source(sha)) == At(d, Source(sha)) {}
    SourcesKept(d, d');
  }

  lemma StageKeeps(d: Disk, c: Call)
    requires Inv(d) && ValidCall(c)
    ensures InvBut(Stage(d, c), StagingOf(c))
    ensures c.started ==> forall a :: a in c.written ==> In(StagingOf(c), Artifact(a)) in Stage(d, c).files
  {
    var st, d' := StagingOf(c), Stage(d, c);
    InvIsInvBut(d, st);
    forall dir | dir != st ensures DirOk(d', dir) {
      assert DirOk(d, dir);
      assert SameDir(d, d', dir);
    }
    forall sha ensures At(d', Source(sha)) == At(d, Source(sha)) {}
    SourcesKept(d, d');
  }

  /** The staging directory holds a complete sample. */
  ghost predicate Ready(d: Disk, c: Call) {
    && At(d, In(StagingOf(c), ManifestFile)) == Some(Record(CompletedManifest(c)))
    && HasAll(d, StagingOf(c), CompletedManifest(c)) && StagingOf(c) in d.dirs
  }

  lemma DescribeKeeps(d: Disk, c: Call)
    requires InvBut(d, StagingOf(c)) && forall a :: a in c.listed ==> In(StagingOf(c), Artifact(a)) in d.files
    ensures InvBut(Describe(d, c), StagingOf(c))
    ensures c.putConfig == PutOk && c.putManifest == PutOk ==> Ready(Describe(d, c), c)
    ensures forall dir :: dir != StagingOf(c) ==> SameDir(d, Describe(d, c), dir)
  {
    var st := StagingOf(c);
    var d1 := Put(d, In(st, ConfigFile), Config(c.sample.config), c.putConfig);
    StagingPut(d, c, ConfigFile, Config(c.sample.config), c.putConfig);
    StagingPut(d1, c, ManifestFile, Record(CompletedManifest(c)), c.putManifest);
  }

  /** The version set aside is moved whole, and the sample's directory is gone. */
  lemma SetAsideKeeps(d: Disk, c: Call)
    requires InvBut(d, StagingOf(c)) && Ready(d, c)
    ensures InvBut(SetAside(d, c), StagingOf(c)) && Ready(SetAside(d, c), c)
    ensures Replaces(d, c) ==> Samples(c.sample) !in SetAside(d, c).dirs
    ensures !Replaces(d, c) ==> SetAside(d, c) == d
  {
    var st, from, to, d' := StagingOf(c), Samples(c.sample), Superseded(c.sample, c.stamp), SetAside(d, c);
    if Replaces(d, c) {
      assert DirOk(d, from) && DirOk(d, to);
      if to in d.dirs {
        DeleteOther(d, st, from);
      } else {
        MoveCarries(d, st, from, to);
        NoFilesBelow(d, st, to);
        forall dir | dir != st ensures DirOk(d', dir) {
          if dir != from && dir != to {
            assert DirOk(d, dir);
            MoveFrame(d, from, to, dir);
          } else if dir == from {
            forall rel ensures In(from, rel) !in d'.files { assert At(d', In(from, rel)) == None; }
          }
        }
        MoveFrame(d, from, to, st);
        SourcesKept(d, d');
      }
    }
  }

  /** Removing a directory other than the one in work. */
  lemma DeleteOther(d: Disk, st: Dir, gone: Dir)
    requires InvBut(d, st) && gone != st
    ensures InvBut(Delete(d, gone), st) && SameDir(d, Delete(d, gone), st)
  {
    var d' := Delete(d, gone);
    forall rel | In(st, rel) in d'.files ensures st in d'.dirs { assert At(d', In(st, rel)) == At(d, In(st, rel)); }
    forall dir | dir != st ensures DirOk(d', dir) {
      assert DirOk(d, dir);
      if dir != gone {
      } else {
        forall rel ensures In(gone, rel) !in d'.files {}
      }
    }
    forall sha ensures At(d', Source(sha)) == At(d, Source(sha)) {}
    SourcesKept(d, d');
  }

  /** Promotion leaves no staging directory, and a whole sample. */
  lemma PromoteKeeps(d: Disk, c: Call)
    requires InvBut(d, StagingOf(c)) && Ready(d, c)
    ensures Inv(Promote(d, StagingOf(c), Samples(c.sample)))
    ensures Samples(c.sample) !in d.dirs ==>
              StoredRecord(Promote(d, StagingOf(c), Samples(c.sample)), c.sample) == Some(CompletedManifest(c))
    ensures Samples(c.sample) in d.dirs ==>
              SameDir(d, Promote(d, StagingOf(c), Samples(c.sample)), Samples(c.sample))
  {
    var st, to := StagingOf(c), Samples(c.sample);
    var d' := Promote(d, st, to);
    if to in d.dirs {
      DeleteRestores(d, st);
    } else {
      MoveCarries(d, st, st, to);
      NoFilesBelow(d, st, to);
      forall dir ensures DirOk(d', dir) {
        if dir != st && dir != to {
          assert DirOk(d, dir);
          MoveFrame(d, st, to, dir);
        } else if dir == st {
          forall rel ensures In(st, rel) !in d'.files { assert At(d', In(st, rel)) == None; }
        }
      }
      SourcesKept(d, d');
      assert At(d', In(to, ManifestFile)) == At(d, In(st, ManifestFile));
    }
  }

  lemma PublishKeeps(d: Disk, c: Call)
    requires InvBut(d, StagingOf(c)) && forall a :: a in c.listed ==> In(StagingOf(c), Artifact(a)) in d.files
    ensures InvBut(Publish(d, c).disk, StagingOf(c))
  {
    DescribeKeeps(d, c);
    if c.validates && c.putConfig == PutOk && c.putManifest == PutOk {
      var d1 := Describe(d, c);
      SetAsideKeeps(d1, c);
      PromoteKeeps(SetAside(d1, c), c);
      InvIsInvBut(Promote(SetAside(d1, c), StagingOf(c), Samples(c.sample)), StagingOf(c));
    }
  }

  // ---- one call ---------------------------------------------------------------------------

  lemma TryKeeps(d: Disk, c: Call)
    requires Inv(d) && ValidCall(c)
    ensures InvBut(TryBody(d, c).disk, StagingOf(c))
  {
    InvIsInvBut(d, StagingOf(c));
    if c.parse == Fine {
      StageKeeps(d, c);
      if c.extract == Fine { PublishKeeps(Stage(d, c), c); }
    }
  }

  lemma SettleKeeps(s: Step, c: Call)
    requires InvBut(s.disk, StagingOf(c))
    ensures Inv(Settle(s, c).disk)
  {
    var st := StagingOf(c);
    if s.exit.Raised? {
      DeleteRestores(s.disk, st);
      FinalizeKeeps(Delete(s.disk, st), c, s.exit.code);
      var t := Finalize(Delete(s.disk, st), c, s.exit.code);
      assert DirOk(t.disk, st);
    } else if st in s.disk.dirs {
      DeleteRestores(s.disk, st);
    } else {
      assert forall rel :: In(st, rel) !in s.disk.files;
      forall dir ensures DirOk(s.disk, dir) {}
    }
  }

  lemma SourcePutKeeps(d: Disk, c: Call)
    requires Inv(d)
    ensures Inv(Put(d, Source(c.sample.sha), SourceBytes(c.sample.sha), c.putSource))
  {
    var d' := Put(d, Source(c.sample.sha), SourceBytes(c.sample.sha), c.putSource);
    forall dir ensures DirOk(d', dir) {
      assert DirOk(d, dir);
    }
    SourcesKept(d, d');
  }

  /** One call keeps the invariant, whatever fails: no staging directory survives any exit, and every
      stored completed manifest has all its artifacts. */
  lemma ProcessKeeps(d: Disk, c: Call)
    requires Inv(d) && ValidCall(c)
    ensures Inv(Process(d, c).disk)
  {
    match c.intake
    case Raises(code) => FinalizeKeeps(d, c, code);
    case Breaks =>
    case Fine =>
      SourcePutKeeps(d, c);
      var d' := WithSource(d, c);
      TryKeeps(d', c);
      SettleKeeps(TryBody(d', c), c);
  }

  // ---- runs -------------------------------------------------------------------------------

  function After(d: Disk, calls: seq<Call>): Disk
    decreases |calls|
  {
    if calls == [] then d else After(Process(d, calls[0]).disk, calls[1..])
  }

  /** Over any sequence of calls, from the empty store: no staging key, sources are the bytes they are
      named for, and a completed manifest has everything it lists beside it, in the samples and among
      the versions set aside. */
  lemma {:induction false} StoreIsSound(d: Disk, calls: seq<Call>)
    requires Inv(d) && forall i :: 0 <= i < |calls| ==> ValidCall(calls[i])
    ensures Inv(After(d, calls))
    decreases |calls|
  {
    if calls != [] {
      ProcessKeeps(d, calls[0]);
      StoreIsSound(Process(d, calls[0]).disk, calls[1..]);
    }
  }

  lemma EmptyIsSound()
    ensures Inv(Disk(map[], {}))
  {
    var d := Disk(map[], {});
    forall dir ensures DirOk(d, dir) {}
    forall sha ensures SourceOk(d, sha) {}
  }

  /** The same for the program: a worker that processes calls one after the other. */
  method RunCalls(store: LocalFSStore, calls: seq<Call>)
    requires Inv(store.Contents()) && forall i :: 0 <= i < |calls| ==> ValidCall(calls[i])
    modifies store
    ensures store.Contents() == After(old(store.Contents()), calls) && Inv(store.Contents())
  {
    StoreIsSound(store.Contents(), calls);
    ghost var end := After(store.Contents(), calls);
    var i := 0;
    while i < |calls|
      invariant 0 <= i <= |calls| && After(store.Contents(), calls[i..]) == end
    {
      assert calls[i..][1..] == calls[i + 1..];
      var _ := ProcessSource(store, calls[i]);
      i := i + 1;
    }
  }

  // ---- reuse ------------------------------------------------------------------------------

  lemma RecordStored(d: Disk, s: SampleId)
    requires Inv(d)
    ensures ManifestKey(s) in d.files <==> StoredRecord(d, s).Some?
  {
    assert DirOk(d, Samples(s));
  }

  /** A call that passes intake with reuse on returns the stored manifest and leaves the store alone. */
  lemma ReuseReturnsStored(d: Disk, c: Call)
    requires Inv(d) && c.intake == Fine && c.reuse && ManifestKey(c.sample) in d.files
    ensures Process(d, c).disk == d && StoredRecord(d, c.sample).Some?
    ensures Process(d, c).exit
         == if c.reused == Fine then Returned(StoredRecord(d, c.sample).value) else Failing(c.reused)
  {
    RecordStored(d, c.sample);
  }

  /** An intake rejection of bytes that were processed before under another name replaces the stored
      manifest: exactly then does a call with reuse change an existing one. */
  predicate IntakeReplaces(c: Call) {
    c.intake.Raises? && Pins(c.intake.code) && c.putRecord == PutOk
  }

  lemma CompletedSurvivesIff(d: Disk, c: Call)
    requires Inv(d) && c.reuse
    requires StoredRecord(d, c.sample).Some? && StoredRecord(d, c.sample).value.status == Status.Completed
    ensures At(Process(d, c).disk, ManifestKey(c.sample)) == At(d, ManifestKey(c.sample)) <==> !IntakeReplaces(c)
  {
    RecordStored(d, c.sample);
    if c.intake.Raises? {
      var m := FailureManifest(c, c.intake.code);
      assert m.status != Status.Completed;
    }
  }

  // ---- other samples ----------------------------------------------------------------------

  predicate Concerns(dir: Dir, s: SampleId) {
    dir.sample == s
  }

  lemma PromoteFrame(d: Disk, st: Dir, src: Dir, dst: Dir, dir: Dir)
    requires InvBut(d, st) && src != dst && dir != src && dir != dst
    ensures SameDir(d, Promote(d, src, dst), dir)
  {
  }

  lemma PublishFrame(d: Disk, c: Call, dir: Dir)
    requires InvBut(d, StagingOf(c)) && !Concerns(dir, c.sample)
    requires forall a :: a in c.listed ==> In(StagingOf(c), Artifact(a)) in d.files
    ensures SameDir(d, Publish(d, c).disk, dir)
  {
    DescribeKeeps(d, c);
    var d1 := Describe(d, c);
    assert SameDir(d, d1, dir);
    if c.validates && c.putConfig == PutOk && c.putManifest == PutOk {
      SetAsideKeeps(d1, c);
      var d2 := SetAside(d1, c);
      if Replaces(d1, c) { PromoteFrame(d1, StagingOf(c), Samples(c.sample), Superseded(c.sample, c.stamp), dir); }
      PromoteFrame(d2, StagingOf(c), StagingOf(c), Samples(c.sample), dir);
    }
  }

  /** No call touches another sample, its staging or its superseded versions. */
  lemma OtherSamplesUntouched(d: Disk, c: Call, dir: Dir)
    requires Inv(d) && ValidCall(c) && !Concerns(dir, c.sample)
    ensures SameDir(d, Process(d, c).disk, dir)
  {
    if c.intake == Fine && !(c.reuse && StoredRecord(d, c.sample).Some?) {
      SourcePutKeeps(d, c);
      var d0 := WithSource(d, c);
      assert SameDir(d, d0, dir);
      TryFrame(d0, c, dir);
      TryKeeps(d0, c);
      SettleFrame(TryBody(d0, c), c, dir);
    }
  }

  lemma TryFrame(d: Disk, c: Call, dir: Dir)
    requires Inv(d) && ValidCall(c) && !Concerns(dir, c.sample)
    ensures SameDir(d, TryBody(d, c).disk, dir)
  {
    StageKeeps(d, c);
    assert SameDir(d, Stage(d, c), dir);
    if c.extract == Fine {
      PublishFrame(Stage(d, c), c, dir);
    }
  }

  lemma SettleFrame(s: Step, c: Call, dir: Dir)
    requires !Concerns(dir, c.sample)
    ensures SameDir(s.disk, Settle(s, c).disk, dir)
  {
  }

  /** Once a sample has an outcome, reusing calls that pass intake never change it, whatever else is
      processed in between. */
  lemma {:induction false} OutcomeIsPinned(d: Disk, calls: seq<Call>, s: SampleId)
    requires Inv(d) && ManifestKey(s) in d.files
    requires forall i :: 0 <= i < |calls| ==> ValidCall(calls[i])
    requires forall i :: 0 <= i < |calls| && calls[i].sample == s ==> calls[i].reuse && calls[i].intake == Fine
    ensures At(After(d, calls), ManifestKey(s)) == At(d, ManifestKey(s))
    decreases |calls|
  {
    if calls != [] {
      var c, d' := calls[0], Process(d, calls[0]).disk;
      if c.sample == s {
        ReuseReturnsStored(d, c);
      } else {
        OtherSamplesUntouched(d, c, Samples(s));
        assert At(d', In(Samples(s), ManifestFile)) == At(d, In(Samples(s), ManifestFile));
      }
      ProcessKeeps(d, c);
      OutcomeIsPinned(d', calls[1..], s);
    }
  }

  // ---- timeouts and crashes ---------------------------------------------------------------

  /** A child of the call runs into its time limit or dies. */
  predicate TimesOut(c: Call) {
    (c.parse.Raises? && c.parse.code in ENVIRONMENT_SENSITIVE)
    || (c.parse == Fine && c.extract.Raises? && c.extract.code in ENVIRONMENT_SENSITIVE)
  }

  /** Such a call changes no sample and no superseded version. */
  lemma TimeoutsPinNothing(d: Disk, c: Call, dir: Dir)
    requires Inv(d) && ValidCall(c) && c.intake == Fine && TimesOut(c) && !dir.Staging?
    ensures SameDir(d, Process(d, c).disk, dir)
  {
    if !(c.reuse && StoredRecord(d, c.sample).Some?) {
      var d0 := WithSource(d, c);
      assert SameDir(d, d0, dir);
      assert SameDir(d0, TryBody(d0, c).disk, dir);
      TimeoutSettles(TryBody(d0, c), c, dir);
    }
  }

  lemma TimeoutSettles(s: Step, c: Call, dir: Dir)
    requires s.exit.Raised? && s.exit.code in ENVIRONMENT_SENSITIVE && !dir.Staging?
    ensures SameDir(s.disk, Settle(s, c).disk, dir)
  {
  }

  /** One of the two children of the call fails with `code`. */
  predicate ChildFails(c: Call, code: ErrorCode) {
    c.parse == Raises(code) || (c.parse == Fine && c.extract == Raises(code))
  }

  /** The call gets as far as its children. */
  predicate Starts(d: Disk, c: Call) {
    c.intake == Fine && (Source(c.sample.sha) in d.files || c.putSource == PutOk) && c.accepted == Fine && c.workdir
  }

  /** A sample without an outcome gets one from a failing child exactly when the code is
      deterministic: neither retryable nor a matter of the environment. */
  lemma FailureIsStoredIff(d: Disk, c: Call, code: ErrorCode)
    requires Inv(d) && ValidCall(c) && ManifestKey(c.sample) !in d.files
    requires Starts(d, c) && ChildFails(c, code) && c.putRecord == PutOk
    ensures ManifestKey(c.sample) in Process(d, c).disk.files <==> Pins(code)
  {
    RecordStored(d, c.sample);
    FailureSettles(d, c, code);
  }

  /** What a failing child leaves of the sample's directory. */
  lemma FailureSettles(d: Disk, c: Call, code: ErrorCode)
    requires Starts(d, c) && ChildFails(c, code)
    ensures
      var d', to := Work(d, c).disk, Samples(c.sample);
      var recorded := Pins(code) && c.putRecord == PutOk;
      && (ManifestKey(c.sample) in d'.files <==> recorded || ManifestKey(c.sample) in d.files)
      && (to in d'.dirs <==> to in d.dirs || (Pins(code) && c.putRecord != BeforeDir))
  {
    var d0 := WithSource(d, c);
    assert SameDir(d, d0, Samples(c.sample));
    ChildFailureRaises(d0, c, code);
    RaisedSettles(TryBody(d0, c), c, code);
  }

  lemma ChildFailureRaises(d: Disk, c: Call, code: ErrorCode)
    requires ChildFails(c, code)
    ensures TryBody(d, c).exit == Raised(code) && SameDir(d, TryBody(d, c).disk, Samples(c.sample))
  {
  }

  /** What handling a coded error leaves of it. */
  lemma RaisedSettles(s: Step, c: Call, code: ErrorCode)
    requires s.exit == Raised(code)
    ensures
      var d', to := Settle(s, c).disk, Samples(c.sample);
      var recorded := Pins(code) && c.putRecord == PutOk;
      && (ManifestKey(c.sample) in d'.files <==> recorded || ManifestKey(c.sample) in s.disk.files)
      && (to in d'.dirs <==> to in s.disk.dirs || (Pins(code) && c.putRecord != BeforeDir))
  {
    var d1 := Delete(s.disk, StagingOf(c));
    assert At(d1, ManifestKey(c.sample)) == At(s.disk, ManifestKey(c.sample));
    assert Samples(c.sample) in d1.dirs <==> Samples(c.sample) in s.disk.dirs;
    var t := Finalize(d1, c, code);
    assert At(Settle(s, c).disk, ManifestKey(c.sample)) == At(t.disk, ManifestKey(c.sample));
    assert Samples(c.sample) in Settle(s, c).disk.dirs <==> Samples(c.sample) in t.disk.dirs;
  }

  // ---- what a caller is told --------------------------------------------------------------

  /** Every step of a fresh call works. */
  predicate AllFine(c: Call) {
    && c.intake == Fine && c.putSource == PutOk && c.accepted == Fine && c.workdir
    && c.parse == Fine && c.extract == Fine && c.validates
    && c.putConfig == PutOk && c.putManifest == PutOk && c.supersede && c.promote && c.announced == Fine
  }

  /** The sample directory is in the way of the promotion. */
  predicate Blocked(d: Disk, c: Call) {
    Samples(c.sample) in d.dirs && ManifestKey(c.sample) !in d.files
  }

  /** A call that works and finds nothing to reuse returns a completed manifest. */
  lemma FineCallCompletes(d: Disk, c: Call)
    requires Inv(d) && ValidCall(c) && AllFine(c) && !(c.reuse && ManifestKey(c.sample) in d.files)
    ensures Process(d, c).exit == Returned(CompletedManifest(c))
  {
    RecordStored(d, c.sample);
  }

  /** A call that does its own work and returns a completed manifest has stored it, unless the sample's
      directory exists without a manifest: then the finished sample is thrown away. */
  lemma CompletedIsStoredIff(d: Disk, c: Call)
    requires Inv(d) && ValidCall(c) && !(c.reuse && ManifestKey(c.sample) in d.files)
    requires Process(d, c).exit == Returned(CompletedManifest(c))
    ensures StoredRecord(Process(d, c).disk, c.sample) == Some(CompletedManifest(c)) <==> !Blocked(d, c)
  {
    RecordStored(d, c.sample);
    SourcePutKeeps(d, c);
    var d1 := Stage(WithSource(d, c), c);
    StageKeeps(WithSource(d, c), c);
    OnlyWorkCompletes(d, c);
    PublishedIff(d1, c);
    var s := Publish(d1, c);
    assert At(d1, ManifestKey(c.sample)) == At(d, ManifestKey(c.sample));
    assert DirOk(s.disk, StagingOf(c));
    assert Settle(s, c) == s;
  }

  /** A completed manifest of the call's own comes from its last steps. */
  lemma OnlyWorkCompletes(d: Disk, c: Call)
    requires Inv(d) && !(c.reuse && ManifestKey(c.sample) in d.files)
    requires Process(d, c).exit == Returned(CompletedManifest(c))
    ensures Starts(d, c) && c.parse == Fine && c.extract == Fine
    ensures Publish(Stage(WithSource(d, c), c), c).exit == Returned(CompletedManifest(c))
    ensures Process(d, c) == Settle(Publish(Stage(WithSource(d, c), c), c), c)
  {
    RecordStored(d, c.sample);
    assert forall code :: FailureManifest(c, code) != CompletedManifest(c);
    var d0 := WithSource(d, c);
    if Starts(d, c) {
      SettleCompletes(TryBody(d0, c), c);
      TryCompletes(d0, c);
    }
  }

  lemma SettleCompletes(s: Step, c: Call)
    requires Settle(s, c).exit == Returned(CompletedManifest(c))
    ensures s.exit == Returned(CompletedManifest(c))
  {
    assert forall code :: FailureManifest(c, code) != CompletedManifest(c);
  }

  lemma TryCompletes(d: Disk, c: Call)
    requires TryBody(d, c).exit == Returned(CompletedManifest(c))
    ensures c.parse == Fine && c.extract == Fine && TryBody(d, c) == Publish(Stage(d, c), c)
  {
  }

  /** The last steps of a call that completes. */
  lemma PublishedIff(d: Disk, c: Call)
    requires InvBut(d, StagingOf(c)) && forall a :: a in c.listed ==> In(StagingOf(c), Artifact(a)) in d.files
    requires !(c.reuse && ManifestKey(c.sample) in d.files)
    requires Publish(d, c).exit == Returned(CompletedManifest(c))
    ensures Inv(Publish(d, c).disk)
    ensures StoredRecord(Publish(d, c).disk, c.sample) == Some(CompletedManifest(c)) <==> !Blocked(d, c)
  {
    var to, d2 := Samples(c.sample), Describe(d, c);
    DescribeKeeps(d, c);
    assert SameDir(d, d2, to);
    assert At(d2, In(to, ManifestFile)) == At(d, In(to, ManifestFile));
    SetAsideKeeps(d2, c);
    PromoteKeeps(SetAside(d2, c), c);
  }

  // ---- when a directory gets in the way ---------------------------------------------------

  /** Publishing never leaves the directory without a manifest, and an error raised at its end finds
      one. */
  lemma PublishLeavesManifest(d: Disk, c: Call)
    requires InvBut(d, StagingOf(c)) && forall a :: a in c.listed ==> In(StagingOf(c), Artifact(a)) in d.files
    requires !Blocked(d, c)
    ensures !Blocked(Publish(d, c).disk, c)
    ensures Publish(d, c).exit.Raised? ==> ManifestKey(c.sample) in Publish(d, c).disk.files
  {
    var to, d1 := Samples(c.sample), Describe(d, c);
    DescribeKeeps(d, c);
    assert SameDir(d, d1, to);
    assert At(d1, In(to, ManifestFile)) == At(d, In(to, ManifestFile));
    if c.validates && c.putConfig == PutOk && c.putManifest == PutOk {
      SetAsideKeeps(d1, c);
      var d2 := SetAside(d1, c);
      PromoteKeeps(d2, c);
      var d3 := Promote(d2, StagingOf(c), to);
      assert to in d2.dirs ==> At(d3, In(to, ManifestFile)) == At(d2, In(to, ManifestFile));
    }
  }

  /** The failure record of the call breaks off after making the sample's directory. */
  predicate RecordBreaks(d: Disk, c: Call) {
    && ManifestKey(c.sample) !in d.files && c.putRecord == AfterDir
    && (|| (c.intake.Raises? && Pins(c.intake.code))
        || (Starts(d, c) && c.parse.Raises? && Pins(c.parse.code))
        || (Starts(d, c) && c.parse == Fine && c.extract.Raises? && Pins(c.extract.code)))
  }

  /** A sample's directory holds a manifest or does not exist; a call breaks this exactly when recording
      a deterministic failure breaks off after the directory is made. */
  lemma BlocksIff(d: Disk, c: Call)
    requires Inv(d) && ValidCall(c) && !Blocked(d, c)
    ensures Blocked(Process(d, c).disk, c) <==> RecordBreaks(d, c)
  {
    RecordStored(d, c.sample);
    if c.intake == Fine && !(c.reuse && ManifestKey(c.sample) in d.files) && Starts(d, c) {
      if c.parse.Raises? {
        FailureSettles(d, c, c.parse.code);
      } else if c.parse == Fine && c.extract.Raises? {
        FailureSettles(d, c, c.extract.code);
      } else {
        WorkLeavesManifest(d, c);
      }
    }
  }

  /** Work whose children do not raise an error leaves no such directory. */
  lemma WorkLeavesManifest(d: Disk, c: Call)
    requires Inv(d) && ValidCall(c) && !Blocked(d, c) && Starts(d, c)
    requires !c.parse.Raises? && (c.parse == Fine ==> !c.extract.Raises?)
    ensures !Blocked(Work(d, c).disk, c)
  {
    SourcePutKeeps(d, c);
    var d0 := WithSource(d, c);
    var d1 := Stage(d0, c);
    StageKeeps(d0, c);
    assert At(d1, ManifestKey(c.sample)) == At(d, ManifestKey(c.sample));
    if c.parse == Fine && c.extract == Fine { PublishLeavesManifest(d1, c); }
    var s := TryBody(d0, c);
    assert !Blocked(s.disk, c) && (s.exit.Raised? ==> ManifestKey(c.sample) in s.disk.files);
    SettleLeavesManifest(s, c);
  }

  lemma SettleLeavesManifest(s: Step, c: Call)
    requires !Blocked(s.disk, c) && (s.exit.Raised? ==> ManifestKey(c.sample) in s.disk.files)
    ensures !Blocked(Settle(s, c).disk, c)
  {
    var d1 := Delete(s.disk, StagingOf(c));
    assert At(d1, ManifestKey(c.sample)) == At(s.disk, ManifestKey(c.sample));
    if s.exit.Raised? {
      var t := Finalize(d1, c, s.exit.code);
      assert At(t.disk, ManifestKey(c.sample)).Some?;
      assert At(Delete(t.disk, StagingOf(c)), ManifestKey(c.sample)) == At(t.disk, ManifestKey(c.sample));
    }
  }

  /** A witness: an upload rejected at intake, on the empty store. */
  lemma BlockedDirectoryArises(c: Call)
    requires c.intake.Raises? && Pins(c.intake.code) && c.putRecord == AfterDir
    ensures Process(Disk(map[], {}), c).exit == Escaped && Blocked(Process(Disk(map[], {}), c).disk, c)
  {
  }

  /** What it costs: a second call for that sample works throughout and returns a completed manifest
      that the store does not hold. */
  lemma FinishedSampleIsLost(c: Call, c': Call)
    requires ValidCall(c) && c.intake.Raises? && Pins(c.intake.code) && c.putRecord == AfterDir
    requires ValidCall(c') && AllFine(c') && c'.sample == c.sample
    ensures
      var d := Process(Disk(map[], {}), c).disk;
      && Process(d, c').exit == Returned(CompletedManifest(c'))
      && StoredRecord(Process(d, c').disk, c.sample) != Some(CompletedManifest(c'))
  {
    var d := Process(Disk(map[], {}), c).disk;
    BlockedDirectoryArises(c);
    EmptyIsSound();
    ProcessKeeps(Disk(map[], {}), c);
    FineCallCompletes(d, c');
    CompletedIsStoredIff(d, c');
  }
}
