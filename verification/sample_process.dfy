/** `process_source` and `_finalize_failure` (cad2ml/pipeline.py): what one call does to the store, for
    every way its steps can fail, with the clean-up of `except` and `finally`. */
module SampleProcess {
  import opened Wrappers
  import opened JobStates
  import opened SampleStore

  /** A step completes, raises a coded pipeline error, or raises something else. */
  datatype Fault = Fine | Raises(code: ErrorCode) | Breaks

  /** One call, with the outcome of everything outside the store: the checks on the upload, the two
      isolated children, progress callbacks, and the file system itself. `written` is what the
      extraction child wrote before it ended, `listed` what its result lists. */
  datatype Call = Call(
    sample: SampleId, reuse: bool, run: nat, stamp: nat,
    intake: Fault, reused: Fault, putSource: PutFault, accepted: Fault, workdir: bool,
    parse: Fault, started: bool, written: map<nat, nat>, extract: Fault, listed: set<nat>, validates: bool,
    putConfig: PutFault, putManifest: PutFault, supersede: bool, promote: bool, announced: Fault,
    putRecord: PutFault, reported: Fault)

  /** A child that returns has created its directory and hashed every file it lists. */
  predicate ValidCall(c: Call) {
    && (c.extract == Fine ==> c.started && c.listed <= c.written.Keys)
    && (!c.started ==> c.written == map[])
  }

  datatype Exit = Returned(m: Manifest) | Raised(code: ErrorCode) | Escaped

  datatype Step = Step(disk: Disk, exit: Exit)

  function Failing(f: Fault): Exit {
    match f
    case Raises(code) => Raised(code)
    case _ => Escaped
  }

  const ENVIRONMENT_SENSITIVE: set<ErrorCode> := {ParserTimeout, ProcessingTimeout, ChildCrashed}

  function StatusFor(code: ErrorCode): Status {
    match OutcomeOf(code)
    case ORejected => SampleRejected
    case OQuarantined => SampleQuarantined
    case OTimedOut => SampleQuarantined
    case _ => SampleFailed
  }

  function ManifestKey(s: SampleId): Key {
    In(Samples(s), ManifestFile)
  }

  function FailureManifest(c: Call, code: ErrorCode): Manifest {
    Manifest(c.sample, StatusFor(code), {}, Some(code))
  }

  function CompletedManifest(c: Call): Manifest {
    Manifest(c.sample, Status.Completed, c.listed, None)
  }

  function StagingOf(c: Call): Dir {
    Staging(c.sample, c.run)
  }

  /** Whether the code of a failure is stored as the sample's outcome. */
  predicate Pins(code: ErrorCode) {
    code !in ENVIRONMENT_SENSITIVE && !Retryable(code)
  }

  /** `_finalize_failure`. */
  function Finalize(d: Disk, c: Call, code: ErrorCode): Step {
    var m := FailureManifest(c, code);
    var d' :=
      if code in ENVIRONMENT_SENSITIVE then Put(d, Audit(c.sample, c.stamp, code), Record(m), c.putRecord)
      else if !Retryable(code) then Put(d, ManifestKey(c.sample), Record(m), c.putRecord)
      else d;
    if !Retryable(code) && c.putRecord != PutOk then Step(d', Escaped)
    else if c.reported != Fine then Step(d', Failing(c.reported))
    else Step(d', Returned(m))
  }

  /** What the extraction child leaves in its directory. */
  function Stage(d: Disk, c: Call): Disk {
    if c.started then
      Disk(WithArtifacts(d.files, c, c.written.Keys), d.dirs + {StagingOf(c)})
    else d
  }

  /** The files once the artifacts in `names` are written. */
  function WithArtifacts(files: map<Key, Content>, c: Call, names: set<nat>): map<Key, Content> {
    files + map a | a in names && a in c.written :: In(StagingOf(c), Artifact(a)) := Data(c.written[a])
  }

  lemma OneMoreArtifact(files: map<Key, Content>, c: Call, names: set<nat>, a: nat)
    requires a in c.written
    ensures WithArtifacts(files, c, names + {a})
         == WithArtifacts(files, c, names)[In(StagingOf(c), Artifact(a)) := Data(c.written[a])]
  {
  }

  /** Config, then manifest, into the staging directory. */
  function Describe(d: Disk, c: Call): Disk {
    var d' := Put(d, In(StagingOf(c), ConfigFile), Config(c.sample.config), c.putConfig);
    if c.putConfig != PutOk then d'
    else Put(d', In(StagingOf(c), ManifestFile), Record(CompletedManifest(c)), c.putManifest)
  }

  /** An explicit rerun keeps the version it replaces. */
  predicate Replaces(d: Disk, c: Call) {
    !c.reuse && ManifestKey(c.sample) in d.files
  }

  function SetAside(d: Disk, c: Call): Disk {
    if Replaces(d, c) then Promote(d, Samples(c.sample), Superseded(c.sample, c.stamp)) else d
  }

  /** From the child's result to the promoted sample. */
  function Publish(d: Disk, c: Call): Step {
    if !c.validates then Step(d, Escaped)
    else
      var d1 := Describe(d, c);
      if c.putConfig != PutOk || c.putManifest != PutOk then Step(d1, Escaped)
      else if Replaces(d1, c) && !c.supersede && Superseded(c.sample, c.stamp) !in d1.dirs then Step(d1, Escaped)
      else
        var d2 := SetAside(d1, c);
        if !c.promote && Samples(c.sample) !in d2.dirs then Step(d2, Escaped)
        else
          var d3 := Promote(d2, StagingOf(c), Samples(c.sample));
          Step(d3, if c.announced == Fine then Returned(CompletedManifest(c)) else Failing(c.announced))
  }

  /** The body of `try`. */
  function TryBody(d: Disk, c: Call): Step {
    if c.parse != Fine then Step(d, Failing(c.parse))
    else if c.extract != Fine then Step(Stage(d, c), Failing(c.extract))
    else Publish(Stage(d, c), c)
  }

  /** `except PipelineError` and `finally`. */
  function Settle(s: Step, c: Call): Step {
    var t := if s.exit.Raised? then Finalize(Delete(s.disk, StagingOf(c)), c, s.exit.code) else s;
    if StagingOf(c) in t.disk.dirs then Step(Delete(t.disk, StagingOf(c)), t.exit) else t
  }

  /** The disk once the source is in place. */
  function WithSource(d: Disk, c: Call): Disk {
    if Source(c.sample.sha) in d.files then d
    else Put(d, Source(c.sample.sha), SourceBytes(c.sample.sha), c.putSource)
  }

  function Work(d: Disk, c: Call): Step {
    var d' := WithSource(d, c);
    if Source(c.sample.sha) !in d'.files then Step(d', Escaped)
    else if c.accepted != Fine then Step(d', Failing(c.accepted))
    else if !c.workdir then Step(d', Escaped)
    else Settle(TryBody(d', c), c)
  }

  function StoredRecord(d: Disk, s: SampleId): Option<Manifest> {
    match At(d, ManifestKey(s))
    case Some(Record(m)) => Some(m)
    case _ => None
  }

  /** One call of `process_source`. A stored manifest is readable: every writer stores a record. */
  function Process(d: Disk, c: Call): Step {
    match c.intake
    case Raises(code) => Finalize(d, c, code)
    case Breaks => Step(d, Escaped)
    case Fine =>
      if c.reuse && StoredRecord(d, c.sample).Some? then
        Step(d, if c.reused == Fine then Returned(StoredRecord(d, c.sample).value) else Failing(c.reused))
      else Work(d, c)
  }

  // ---- the program ------------------------------------------------------------------------

  method FinalizeFailure(store: LocalFSStore, c: Call, code: ErrorCode) returns (exit: Exit)
    modifies store
    ensures Step(store.Contents(), exit) == Finalize(old(store.Contents()), c, code)
  {
    var m := Manifest(c.sample, StatusFor(code), {}, Some(code));
    var ok := true;
    if code in ENVIRONMENT_SENSITIVE {
      ok := store.PutBytes(Audit(c.sample, c.stamp, code), Record(m), c.putRecord);
    } else if !Retryable(code) {
      ok := store.PutBytes(ManifestKey(c.sample), Record(m), c.putRecord);
    }
    if !ok { return Escaped; }
    if c.reported != Fine { return Failing(c.reported); }
    exit := Returned(m);
  }

  /** The child writes straight into the staging directory. */
  method ExtractChild(store: LocalFSStore, c: Call)
    requires ValidCall(c)
    modifies store
    ensures store.Contents() == Stage(old(store.Contents()), c)
  {
    if !c.started { return; }
    ghost var before := store.Contents();
    store.dirs := store.dirs + {StagingOf(c)};
    var rest := c.written.Keys;
    while rest != {}
      invariant rest <= c.written.Keys && store.dirs == before.dirs + {StagingOf(c)}
      invariant store.files == WithArtifacts(before.files, c, c.written.Keys - rest)
      decreases rest
    {
      var a :| a in rest;
      OneMoreArtifact(before.files, c, c.written.Keys - rest, a);
      assert c.written.Keys - (rest - {a}) == c.written.Keys - rest + {a};
      rest := rest - {a};
      store.files := store.files[In(StagingOf(c), Artifact(a)) := Data(c.written[a])];
    }
    assert c.written.Keys - rest == c.written.Keys;
  }

  method PublishSample(store: LocalFSStore, c: Call) returns (exit: Exit)
    modifies store
    ensures Step(store.Contents(), exit) == Publish(old(store.Contents()), c)
  {
    if !c.validates { return Escaped; }
    var m := Manifest(c.sample, Status.Completed, c.listed, None);
    var ok := store.PutBytes(In(StagingOf(c), ConfigFile), Config(c.sample.config), c.putConfig);
    if !ok { return Escaped; }
    ok := store.PutBytes(In(StagingOf(c), ManifestFile), Record(m), c.putManifest);
    if !ok { return Escaped; }
    if !c.reuse && store.Exists(ManifestKey(c.sample)) {
      if !c.supersede && !store.DirExists(Superseded(c.sample, c.stamp)) { return Escaped; }
      store.PromotePrefix(Samples(c.sample), Superseded(c.sample, c.stamp));
    }
    if !c.promote && !store.DirExists(Samples(c.sample)) { return Escaped; }
    store.PromotePrefix(StagingOf(c), Samples(c.sample));
    if c.announced != Fine { return Failing(c.announced); }
    exit := Returned(m);
  }

  /** The `try` statement with its handler and its `finally`. */
  method TryWork(store: LocalFSStore, c: Call) returns (exit: Exit)
    requires ValidCall(c)
    modifies store
    ensures Step(store.Contents(), exit) == Settle(TryBody(old(store.Contents()), c), c)
  {
    if c.parse != Fine {
      exit := Failing(c.parse);
    } else {
      ExtractChild(store, c);
      if c.extract != Fine {
        exit := Failing(c.extract);
      } else {
        exit := PublishSample(store, c);
      }
    }
    if exit.Raised? {
      store.DeletePrefix(StagingOf(c));
      exit := FinalizeFailure(store, c, exit.code);
    }
    if store.DirExists(StagingOf(c)) { store.DeletePrefix(StagingOf(c)); }
  }

  /** `process_source`. */
  method ProcessSource(store: LocalFSStore, c: Call) returns (exit: Exit)
    requires ValidCall(c)
    modifies store
    ensures Step(store.Contents(), exit) == Process(old(store.Contents()), c)
  {
    if c.intake.Raises? {
      exit := FinalizeFailure(store, c, c.intake.code);
      return;
    }
    if c.intake.Breaks? { return Escaped; }
    if c.reuse && store.Exists(ManifestKey(c.sample)) && store.files[ManifestKey(c.sample)].Record? {
      if c.reused != Fine { return Failing(c.reused); }
      return Returned(store.files[ManifestKey(c.sample)].m);
    }
    if !store.Exists(Source(c.sample.sha)) {
      var ok := store.PutBytes(Source(c.sample.sha), SourceBytes(c.sample.sha), c.putSource);
      if !ok { return Escaped; }
    }
    if c.accepted != Fine { return Failing(c.accepted); }
    if !c.workdir { return Escaped; }
    exit := TryWork(store, c);
  }
}
