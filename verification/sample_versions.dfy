/** What one call of `process_source` leaves where: the version it replaces, the version it publishes,
    versions set aside earlier, and the record of a failure (cad2ml/pipeline.py). */
module SampleVersions {
  import opened Wrappers
  import opened JobStates
  import opened SampleStore
  import opened SampleProcess
  import opened SampleRuns

  // ---- reruns -----------------------------------------------------------------------------

  /** The call gets its result into the staging directory: both children return, the manifest is valid,
      and both files are written. */
  predicate Describes(d: Disk, c: Call) {
    && Starts(d, c) && c.parse == Fine && c.extract == Fine && c.validates
    && c.putConfig == PutOk && c.putManifest == PutOk
  }

  /** An explicit rerun of a stored sample that gets as far as the promotion. */
  predicate Reruns(d: Disk, c: Call) {
    && Describes(d, c) && !c.reuse && ManifestKey(c.sample) in d.files
    && (c.supersede || Superseded(c.sample, c.stamp) in d.dirs)
  }

  /** A directory the call does not write: neither its staging directory nor its sample's, nor the one
      a replaced version goes to, unless that exists. */
  predicate Spared(d: Disk, c: Call, dir: Dir) {
    && dir != StagingOf(c) && dir != Samples(c.sample)
    && (dir == Superseded(c.sample, c.stamp) ==> dir in d.dirs || !Reruns(d, c))
  }

  /** `to` holds on `d'` what `from` holds on `d`. */
  ghost predicate Carried(d: Disk, from: Dir, d': Disk, to: Dir) {
    forall rel :: At(d', In(to, rel)) == At(d, In(from, rel))
  }

  lemma SettleSpares(s: Step, c: Call, dir: Dir)
    requires dir != StagingOf(c) && dir != Samples(c.sample)
    ensures SameDir(s.disk, Settle(s, c).disk, dir)
  {
  }

  /** Up to the promotion only the staging directory changes. */
  lemma DescribedSame(d: Disk, c: Call, dir: Dir)
    requires Inv(d) && ValidCall(c) && dir != StagingOf(c) && c.extract == Fine
    ensures SameDir(d, Describe(Stage(WithSource(d, c), c), c), dir)
    ensures InvBut(Describe(Stage(WithSource(d, c), c), c), StagingOf(c))
    ensures Describes(d, c) ==> Ready(Describe(Stage(WithSource(d, c), c), c), c)
  {
    SourcePutKeeps(d, c);
    var d0 := WithSource(d, c);
    assert SameDir(d, d0, dir);
    StageKeeps(d0, c);
    var d1 := Stage(d0, c);
    assert SameDir(d0, d1, dir);
    DescribeKeeps(d1, c);
    assert SameDir(d1, Describe(d1, c), dir);
  }

  /** The promotion of a rerun, from the described disk. */
  lemma PublishRerun(d: Disk, c: Call)
    requires Inv(d) && ValidCall(c) && Reruns(d, c)
    ensures
      var d1 := Describe(Stage(WithSource(d, c), c), c);
      && Replaces(d1, c) && SameDir(d, d1, Samples(c.sample)) && SameDir(d, d1, Superseded(c.sample, c.stamp))
      && Publish(Stage(WithSource(d, c), c), c).disk
         == if !c.promote then SetAside(d1, c) else Promote(SetAside(d1, c), StagingOf(c), Samples(c.sample))
  {
    var d1 := Describe(Stage(WithSource(d, c), c), c);
    DescribedSame(d, c, Samples(c.sample));
    DescribedSame(d, c, Superseded(c.sample, c.stamp));
    assert At(d1, In(Samples(c.sample), ManifestFile)) == At(d, In(Samples(c.sample), ManifestFile));
    SetAsideKeeps(d1, c);
  }

  lemma WorksOn(d: Disk, c: Call)
    requires Describes(d, c) && (ManifestKey(c.sample) in d.files ==> !c.reuse)
    ensures Process(d, c) == Settle(Publish(Stage(WithSource(d, c), c), c), c)
  {
  }

  lemma SetAsideCarries(d: Disk, c: Call)
    requires InvBut(d, StagingOf(c)) && Replaces(d, c) && Superseded(c.sample, c.stamp) !in d.dirs
    ensures Carried(d, Samples(c.sample), SetAside(d, c), Superseded(c.sample, c.stamp))
  {
    assert DirOk(d, Samples(c.sample));
    MoveCarries(d, StagingOf(c), Samples(c.sample), Superseded(c.sample, c.stamp));
  }

  /** An explicit rerun keeps the version it replaces: file by file it lies in the directory named by the
      call's stamp, however the call ends. */
  lemma RerunKeepsVersion(d: Disk, c: Call)
    requires Inv(d) && ValidCall(c) && Reruns(d, c) && Superseded(c.sample, c.stamp) !in d.dirs
    ensures forall rel ::
        At(Process(d, c).disk, In(Superseded(c.sample, c.stamp), rel)) == At(d, In(Samples(c.sample), rel))
  {
    var to := Superseded(c.sample, c.stamp);
    var d1 := Describe(Stage(WithSource(d, c), c), c);
    PublishRerun(d, c);
    DescribedSame(d, c, to);
    SetAsideCarries(d1, c);
    SetAsideKeeps(d1, c);
    var s := Publish(Stage(WithSource(d, c), c), c);
    PromoteFrame(SetAside(d1, c), StagingOf(c), StagingOf(c), Samples(c.sample), to);
    WorksOn(d, c);
    SettleSpares(s, c, to);
  }

  /** With the same stamp as an earlier rerun of the sample, the earlier version stays and the replaced one
      is lost: the rerun keeps the version it replaces exactly when the directory is free or holds the
      same. */
  lemma VersionKeptIff(d: Disk, c: Call)
    requires Inv(d) && ValidCall(c) && Reruns(d, c)
    ensures Carried(d, Samples(c.sample), Process(d, c).disk, Superseded(c.sample, c.stamp))
       <==> Superseded(c.sample, c.stamp) !in d.dirs
            || Carried(d, Samples(c.sample), d, Superseded(c.sample, c.stamp))
  {
    var to := Superseded(c.sample, c.stamp);
    if to !in d.dirs {
      RerunKeepsVersion(d, c);
    } else {
      VersionsStay(d, c, to);
    }
  }

  // ---- other directories ------------------------------------------------------------------

  /** From the described disk on. */
  lemma PromotionSpares(d: Disk, c: Call, dir: Dir)
    requires InvBut(d, StagingOf(c)) && Ready(d, c) && dir != StagingOf(c) && dir != Samples(c.sample)
    requires dir == Superseded(c.sample, c.stamp) ==> dir in d.dirs || !Replaces(d, c)
    ensures SameDir(d, Promote(SetAside(d, c), StagingOf(c), Samples(c.sample)), dir) && SameDir(d, SetAside(d, c), dir)
  {
    SetAsideKeeps(d, c);
    if Replaces(d, c) && dir != Superseded(c.sample, c.stamp) {
      PromoteFrame(d, StagingOf(c), Samples(c.sample), Superseded(c.sample, c.stamp), dir);
    }
    PromoteFrame(SetAside(d, c), StagingOf(c), StagingOf(c), Samples(c.sample), dir);
  }

  lemma PublishSpares(d: Disk, c: Call, dir: Dir)
    requires Inv(d) && ValidCall(c) && c.parse == Fine && c.extract == Fine && Starts(d, c) && Spared(d, c, dir)
    ensures SameDir(d, Publish(Stage(WithSource(d, c), c), c).disk, dir)
  {
    var d0 := WithSource(d, c);
    assert SameDir(d, d0, dir) && SameDir(d0, Stage(d0, c), dir);
    var d1 := Describe(Stage(d0, c), c);
    DescribedSame(d, c, dir);
    if Describes(d, c) {
      DescribedSame(d, c, Samples(c.sample));
      assert At(d1, In(Samples(c.sample), ManifestFile)) == At(d, In(Samples(c.sample), ManifestFile));
      DescribedSame(d, c, Superseded(c.sample, c.stamp));
      if !Replaces(d1, c) || Reruns(d, c) { PromotionSpares(d1, c, dir); }
    }
  }

  lemma WorkSpares(d: Disk, c: Call, dir: Dir)
    requires Inv(d) && ValidCall(c) && Spared(d, c, dir) && Starts(d, c)
    ensures SameDir(d, Work(d, c).disk, dir)
  {
    var d0 := WithSource(d, c);
    assert SameDir(d, d0, dir);
    assert SameDir(d0, Stage(d0, c), dir);
    if c.parse == Fine && c.extract == Fine { PublishSpares(d, c, dir); }
    SettleSpares(TryBody(d0, c), c, dir);
  }

  /** A call changes its staging directory, its sample, and at most the directory its replaced version
      goes to. */
  lemma VersionsStay(d: Disk, c: Call, dir: Dir)
    requires Inv(d) && ValidCall(c) && Spared(d, c, dir)
    ensures SameDir(d, Process(d, c).disk, dir)
  {
    if Starts(d, c) { WorkSpares(d, c, dir); }
  }

  /** A version set aside stays as it is, whatever is processed later. */
  lemma {:induction false} VersionsStayForEver(d: Disk, calls: seq<Call>, dir: Dir)
    requires Inv(d) && dir.Superseded? && dir in d.dirs
    requires forall i :: 0 <= i < |calls| ==> ValidCall(calls[i])
    ensures SameDir(d, After(d, calls), dir)
    decreases |calls|
  {
    if calls != [] {
      var d' := Process(d, calls[0]).disk;
      VersionsStay(d, calls[0], dir);
      ProcessKeeps(d, calls[0]);
      VersionsStayForEver(d', calls[1..], dir);
      assert forall rel :: At(After(d, calls), In(dir, rel)) == At(d', In(dir, rel));
    }
  }

  // ---- the new version --------------------------------------------------------------------

  /** A published directory: manifest, configuration, and every artifact the child wrote. */
  function NewVersion(c: Call, rel: Rel): Option<Content> {
    match rel
    case ManifestFile => Some(Record(Manifest(c.sample, Status.Completed, c.listed, None)))
    case ConfigFile => Some(Config(c.sample.config))
    case Artifact(a) => if a in c.written then Some(Data(c.written[a])) else None
  }

  lemma DescribedHolds(d: Disk, c: Call, rel: Rel)
    requires Inv(d) && ValidCall(c) && Describes(d, c)
    ensures At(Describe(Stage(WithSource(d, c), c), c), In(StagingOf(c), rel)) == NewVersion(c, rel)
  {
    assert DirOk(d, StagingOf(c));
    var d0 := WithSource(d, c);
    assert At(d0, In(StagingOf(c), rel)) == None;
    var d1 := Stage(d0, c);
    assert At(d1, In(StagingOf(c), rel))
        == if rel.Artifact? && rel.name in c.written then Some(Data(c.written[rel.name])) else None;
  }

  /** What is in staging when the replaced version is aside becomes the sample. */
  lemma PromotionCarries(d: Disk, c: Call)
    requires InvBut(d, StagingOf(c)) && Ready(d, c) && (Samples(c.sample) in d.dirs ==> Replaces(d, c))
    ensures Carried(d, StagingOf(c), Promote(SetAside(d, c), StagingOf(c), Samples(c.sample)), Samples(c.sample))
  {
    var st, d2 := StagingOf(c), SetAside(d, c);
    SetAsideKeeps(d, c);
    if Replaces(d, c) { PromoteFrame(d, st, Samples(c.sample), Superseded(c.sample, c.stamp), st); }
    MoveCarries(d2, st, st, Samples(c.sample));
    forall rel ensures At(Move(d2, st, Samples(c.sample)), In(Samples(c.sample), rel)) == At(d, In(st, rel)) {
      assert At(d2, In(st, rel)) == At(d, In(st, rel));
    }
  }

  /** The last steps of a call that publishes. */
  lemma Publishes(d: Disk, c: Call, d1: Disk)
    requires Inv(d) && ValidCall(c) && Describes(d, c) && c.promote && !c.announced.Raises? && !Blocked(d, c)
    requires ManifestKey(c.sample) in d.files ==> Reruns(d, c)
    requires d1 == Describe(Stage(WithSource(d, c), c), c)
    ensures InvBut(d1, StagingOf(c)) && Ready(d1, c) && (Samples(c.sample) in d1.dirs ==> Replaces(d1, c))
    ensures Publish(Stage(WithSource(d, c), c), c)
         == Step(Promote(SetAside(d1, c), StagingOf(c), Samples(c.sample)),
                 if c.announced == Fine then Returned(CompletedManifest(c)) else Escaped)
  {
    var to := Samples(c.sample);
    DescribedSame(d, c, to);
    assert At(d1, In(to, ManifestFile)) == At(d, In(to, ManifestFile));
    DescribedSame(d, c, Superseded(c.sample, c.stamp));
  }

  lemma Unraised(s: Step, c: Call)
    requires Inv(s.disk) && !s.exit.Raised?
    ensures Settle(s, c) == s
  {
    assert DirOk(s.disk, StagingOf(c));
  }

  /** A call that publishes leaves in the sample's directory what it made, file by file, and nothing
      else. */
  lemma PublishedVersion(d: Disk, c: Call)
    requires Inv(d) && ValidCall(c) && Describes(d, c) && c.promote && !c.announced.Raises? && !Blocked(d, c)
    requires ManifestKey(c.sample) in d.files ==> Reruns(d, c)
    ensures forall rel :: At(Process(d, c).disk, In(Samples(c.sample), rel)) == NewVersion(c, rel)
    ensures Process(d, c).exit
         == if c.announced == Fine then Returned(Manifest(c.sample, Status.Completed, c.listed, None)) else Escaped
  {
    var d1 := Describe(Stage(WithSource(d, c), c), c);
    var s := Publish(Stage(WithSource(d, c), c), c);
    Publishes(d, c, d1);
    PromotionCarries(d1, c);
    SetAsideKeeps(d1, c);
    PromoteKeeps(SetAside(d1, c), c);
    Unraised(s, c);
    WorksOn(d, c);
    forall rel ensures At(s.disk, In(Samples(c.sample), rel)) == NewVersion(c, rel) {
      DescribedHolds(d, c, rel);
      assert At(s.disk, In(Samples(c.sample), rel)) == At(d1, In(StagingOf(c), rel));
    }
  }

  // ---- failures ---------------------------------------------------------------------------

  /** Failures that may be the host's fault: a time limit or a crash. */
  const HOST: set<ErrorCode> := {ParserTimeout, ProcessingTimeout, ChildCrashed}

  /** Where the record of a failure goes: of the host's, aside; of a transient one, nowhere; of any other,
      to the sample itself. */
  function RecordKey(c: Call, code: ErrorCode): Option<Key> {
    if code in HOST then Some(Audit(c.sample, c.stamp, code))
    else if code in {StorageIoError, WorkerLost} then None
    else Some(In(Samples(c.sample), ManifestFile))
  }

  /** The status a failure is recorded with. */
  lemma StatusMeans(code: ErrorCode)
    ensures StatusFor(code) == SampleRejected <==> code in OUTSIDE_CONTRACT
    ensures StatusFor(code) == SampleQuarantined <==> code in UNSAFE || code in HOST
    ensures StatusFor(code) != Status.Completed
    ensures StatusFor(code) == SampleRejected <==> OutcomeState(code) == Rejected
    ensures StatusFor(code) == SampleQuarantined
        <==> OutcomeState(code) == Quarantined || OutcomeState(code) == TimedOut
    ensures StatusFor(code) == SampleFailed
        <==> OutcomeState(code) == FailedRetryable || OutcomeState(code) == FailedTerminal
  {
  }

  /** Recording a failure writes the record where it belongs and nothing else. */
  lemma FinalizeRecords(d: Disk, c: Call, code: ErrorCode, k: Key)
    ensures At(Finalize(d, c, code).disk, k)
         == if c.putRecord == PutOk && RecordKey(c, code) == Some(k)
            then Some(Record(Manifest(c.sample, StatusFor(code), {}, Some(code)))) else At(d, k)
    ensures Finalize(d, c, code).exit
         == if c.putRecord != PutOk && RecordKey(c, code).Some? then Escaped
            else if c.reported != Fine then Failing(c.reported)
            else Returned(Manifest(c.sample, StatusFor(code), {}, Some(code)))
  {
  }

  /** Children write only in the staging directory. */
  lemma StagedOnly(d: Disk, c: Call, code: ErrorCode, k: Key)
    requires ChildFails(c, code)
    ensures TryBody(d, c).exit == Raised(code) && (Under(k, StagingOf(c)) || At(TryBody(d, c).disk, k) == At(d, k))
  {
  }

  lemma RaisedRecords(s: Step, c: Call, code: ErrorCode, k: Key)
    requires s.exit == Raised(code)
    ensures At(Settle(s, c).disk, k)
         == if Under(k, StagingOf(c)) then None
            else if c.putRecord == PutOk && RecordKey(c, code) == Some(k)
            then Some(Record(Manifest(c.sample, StatusFor(code), {}, Some(code)))) else At(s.disk, k)
    ensures c.putRecord == PutOk && c.reported == Fine ==>
              Settle(s, c).exit == Returned(Manifest(c.sample, StatusFor(code), {}, Some(code)))
  {
    var d1 := Delete(s.disk, StagingOf(c));
    FinalizeRecords(d1, c, code, k);
    assert At(d1, k) == if Under(k, StagingOf(c)) then None else At(s.disk, k);
  }

  /** A call one of whose children fails leaves the record of that failure, at the place of its code, and
      no other trace outside the sources; it returns the record. */
  lemma FailureRecorded(d: Disk, c: Call, code: ErrorCode, k: Key)
    requires Inv(d) && ValidCall(c) && Starts(d, c) && ChildFails(c, code)
    requires !(c.reuse && ManifestKey(c.sample) in d.files) && !k.Source?
    ensures At(Process(d, c).disk, k)
         == if c.putRecord == PutOk && RecordKey(c, code) == Some(k)
            then Some(Record(Manifest(c.sample, StatusFor(code), {}, Some(code)))) else At(d, k)
    ensures c.putRecord == PutOk && c.reported == Fine ==>
              Process(d, c).exit == Returned(Manifest(c.sample, StatusFor(code), {}, Some(code)))
  {
    RecordStored(d, c.sample);
    var d0 := WithSource(d, c);
    assert At(d0, k) == At(d, k);
    StagedOnly(d0, c, code, k);
    RaisedRecords(TryBody(d0, c), c, code, k);
    if Under(k, StagingOf(c)) { Unstaged(d, k, StagingOf(c)); }
  }

  lemma Unstaged(d: Disk, k: Key, st: Dir)
    requires Inv(d) && st.Staging? && Under(k, st)
    ensures At(d, k) == None
  {
    assert DirOk(d, st);
    assert k == In(st, k.rel);
  }

  /** An upload rejected at intake leaves its record as the sample's outcome, over whatever was there. */
  lemma IntakeRecorded(d: Disk, c: Call, k: Key)
    requires c.intake.Raises?
    ensures At(Process(d, c).disk, k)
         == if c.putRecord == PutOk && RecordKey(c, c.intake.code) == Some(k)
            then Some(Record(Manifest(c.sample, StatusFor(c.intake.code), {}, Some(c.intake.code)))) else At(d, k)
  {
    FinalizeRecords(d, c, c.intake.code, k);
  }
}
