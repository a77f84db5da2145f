/** What `handle` (apps/worker/main.py) makes of one job: the steps of a call, for every order of work and
    every ending, and the history they leave in the log. */
module JobScripts {
  import opened Wrappers
  import opened JobStates
  import opened JobProtocol
  import opened JobInvariant
  import opened JobRuns

  /** How `process_source` or `run_training` came out. */
  datatype Ending = Succeeded | Refused(code: ErrorCode) | Raised

  /** What happens while the pipeline runs: it reports the next stage of the table, it mentions a stage
      that is none, or the heartbeat thread renews the lease. */
  datatype Work = Stage | Mention(stage: nat) | Pulse

  /** The run of one job: the work, in the order it happens, and its ending. */
  datatype Script = Script(work: seq<Work>, ending: Ending)

  /** How many stages of the table the work reports. */
  function StagesIn(work: seq<Work>): nat {
    if work == [] then 0 else StagesIn(work[..|work| - 1]) + if work[|work| - 1].Stage? then 1 else 0
  }

  lemma {:induction false} StagesGrow(work: seq<Work>, i: nat)
    requires i < |work|
    ensures StagesIn(work[..i + 1]) == StagesIn(work[..i]) + (if work[i].Stage? then 1 else 0) <= StagesIn(work)
    decreases |work|
  {
    assert work[..i + 1][..i] == work[..i];
    if i == |work| - 1 {
      assert work[..i + 1] == work;
    } else {
      var init := work[..|work| - 1];
      StagesGrow(init, i);
      assert init[..i + 1] == work[..i + 1] && init[..i] == work[..i];
    }
  }

  function EndAction(w: WorkerId, ending: Ending): Action {
    match ending
    case Succeeded => Finish(w)
    case Refused(code) => Fail(w, code)
    case Raised => Raise(w)
  }

  function WorkAction(w: WorkerId, item: Work): Action {
    match item
    case Stage => Report(w)
    case Mention(stage) => Note(w, stage)
    case Pulse => Beat(w)
  }

  function WorkActions(w: WorkerId, work: seq<Work>): seq<Action> {
    if work == [] then [] else WorkActions(w, work[..|work| - 1]) + [WorkAction(w, work[|work| - 1])]
  }

  /** The steps of one call of `handle`. */
  function HandleActions(w: WorkerId, script: Script): seq<Action> {
    [Take(w), Beat(w)] + WorkActions(w, script.work) + [EndAction(w, script.ending), Ack(w)]
  }

  lemma ExecThreeParts(s: System, a: Action, b: Action, mid: seq<Action>, last: seq<Action>)
    ensures Exec(s, [a, b] + mid + last) == Exec(Exec(Next(Next(s, a), b), mid), last)
  {
    ExecTwo(s, a, b);
    ExecConcat(s, [a, b] + mid, last);
    ExecConcat(s, [a, b], mid);
  }

  predicate InsideHandle(w: WorkerId, a: Action) {
    (a.Beat? || a.Note? || a.Report? || a.Finish? || a.Fail? || a.Raise? || a.Ack?) && a.w == w
  }

  lemma {:induction false} WorkIsInside(w: WorkerId, work: seq<Work>)
    ensures forall a :: a in WorkActions(w, work) ==> InsideHandle(w, a)
  {
    if work != [] { WorkIsInside(w, work[..|work| - 1]); }
  }

  /** A worker that lost the claim is idle: the rest of `handle` does not happen. */
  lemma {:induction false} IdleRests(s: System, w: WorkerId, acts: seq<Action>)
    requires w in s.live && s.live[w] == Idle && forall a :: a in acts ==> InsideHandle(w, a)
    ensures Exec(s, acts) == s
    decreases acts
  {
    if acts != [] {
      assert InsideHandle(w, acts[0]);
      IdleRests(s, w, acts[1..]);
    }
  }

  // ---- the history of a handled job -------------------------------------------------------

  /** The changes of one call on a job claimed under attempt `n`: the claim, the stages in their order,
      and what the ending calls for. */
  function StagePath(kind: Kind, n: nat, k: nat): seq<Change>
    requires k <= 3
  {
    if kind == Train then [Change(Training, n, true)]
    else
      [Change(Parsing, n, true)]
      + [Change(Normalizing, n, false), Change(Extracting, n, false), Change(ValidatingOutputs, n, false)][..k]
  }

  function EndPath(ending: Ending, n: nat, maxAttempts: int): seq<Change> {
    match ending
    case Succeeded => [Change(Completed, n, false)]
    case Raised => [Change(FailedTerminal, n, false)]
    case Refused(code) =>
      if Retryable(code) then
        [Change(FailedRetryable, n, false), Change(if n < maxAttempts then Queued else FailedTerminal, n, false)]
      else [Change(OutcomeState(code), n, false)]
  }

  /** A claimed job after `k` stages: the row and the worker agree, and the log has the path. */
  ghost predicate Worked(s: System, w: WorkerId, job: JobId, row: Row, base: seq<Change>, queue: seq<JobId>, k: nat) {
    && k <= 3 && w in s.live && job in s.db.rows && s.queue == queue
    && s.db.rows[job].kind == row.kind && s.db.rows[job].maxAttempts == row.maxAttempts
    && s.db.rows[job].attempts == row.attempts + 1
    && s.db.rows[job].state == (if row.kind == Train then Training else if k == 0 then Parsing else STAGES[k - 1])
    && s.live[w] == Running(job, s.db.rows[job].state, if row.kind == Train then 0 else k)
    && Moves(s.db.log, job) == base + StagePath(row.kind, row.attempts + 1, k)
  }

  lemma MovesSnoc(log: seq<Event>, e: Event, job: JobId)
    ensures Moves(log + [e], job) == Moves(log, job) + ChangeOf(e, job)
  {
    assert (log + [e])[..|log|] == log;
  }

  lemma TakeWorks(s: System, w: WorkerId, job: JobId)
    requires w in s.live && s.live[w] == Reserved(job) && InState(s.db, job, Queued)
    ensures Worked(Next(s, Take(w)), w, job, s.db.rows[job], Moves(s.db.log, job), s.queue, 0)
  {
    var row := s.db.rows[job];
    var first := if row.kind == Train then Training else Parsing;
    ClaimWorks(s, Next(s, Take(w)), w, job, first);
  }

  lemma ClaimWorks(s: System, s': System, w: WorkerId, job: JobId, first: JobState)
    requires job in s.db.rows && first == (if s.db.rows[job].kind == Train then Training else Parsing)
    requires s'.db == ClaimRow(s.db, job, w, first, s.leaseS, s.now) && s'.queue == s.queue
    requires s'.live == s.live[w := Running(job, first, 0)]
    ensures Worked(s', w, job, s.db.rows[job], Moves(s.db.log, job), s.queue, 0)
  {
    var n := s.db.rows[job].attempts + 1;
    MovesSnoc(s.db.log, Moved(job, first, n, Some(w), true), job);
    assert StagePath(s.db.rows[job].kind, n, 0) == [Change(first, n, true)];
  }

  lemma BeatWorks(s: System, w: WorkerId, job: JobId, row: Row, base: seq<Change>, queue: seq<JobId>, k: nat)
    requires Worked(s, w, job, row, base, queue, k)
    ensures Worked(Next(s, Beat(w)), w, job, row, base, queue, k)
  {
  }

  lemma NoteWorks(s: System, w: WorkerId, job: JobId, row: Row, base: seq<Change>, queue: seq<JobId>, k: nat,
                  stage: nat)
    requires Worked(s, w, job, row, base, queue, k)
    ensures Worked(Next(s, Note(w, stage)), w, job, row, base, queue, k)
  {
    MovesSnoc(s.db.log, Noted(job, stage, s.db.rows[job].attempts, Some(w)), job);
  }

  lemma ReportWorks(s: System, w: WorkerId, job: JobId, row: Row, base: seq<Change>, queue: seq<JobId>, k: nat)
    requires Worked(s, w, job, row, base, queue, k) && k < 3
    ensures Worked(Next(s, Report(w)), w, job, row, base, queue, k + 1)
  {
    if row.kind == Process {
      PlainEffect(s, Report(w));
      StageWorks(s, Next(s, Report(w)), w, job, row, base, queue, k);
    }
  }

  lemma StageWorks(s: System, s': System, w: WorkerId, job: JobId, row: Row, base: seq<Change>, queue: seq<JobId>,
                   k: nat)
    requires Worked(s, w, job, row, base, queue, k) && k < 3 && row.kind == Process
    requires TakesEffect(s, s', Some(w), Cas(job, s.db.rows[job].state, STAGES[k]))
    requires s'.live == s.live[w := Running(job, STAGES[k], k + 1)]
    ensures Worked(s', w, job, row, base, queue, k + 1)
  {
    var n := s.db.rows[job].attempts;
    MovesSnoc(s.db.log, Moved(job, STAGES[k], n, Some(w), false), job);
    assert s'.db.log == s.db.log + [Moved(job, STAGES[k], n, Some(w), false)];
    PathGrows(n, k);
  }

  lemma PathGrows(n: nat, k: nat)
    requires k < 3
    ensures StagePath(Process, n, k + 1) == StagePath(Process, n, k) + [Change(STAGES[k], n, false)]
  {
  }

  lemma {:induction false} WorkWorks(s: System, w: WorkerId, job: JobId, row: Row, base: seq<Change>, queue: seq<JobId>,
                                     work: seq<Work>)
    requires Worked(s, w, job, row, base, queue, 0) && StagesIn(work) <= 3
    ensures Worked(Exec(s, WorkActions(w, work)), w, job, row, base, queue, StagesIn(work))
    decreases |work|
  {
    if work != [] {
      var n := |work| - 1;
      var init, item := work[..n], work[n];
      WorkWorks(s, w, job, row, base, queue, init);
      ExecSnoc(s, WorkActions(w, init), WorkAction(w, item));
      var s1, k := Exec(s, WorkActions(w, init)), StagesIn(init);
      match item
      case Stage => ReportWorks(s1, w, job, row, base, queue, k);
      case Mention(stage) => NoteWorks(s1, w, job, row, base, queue, k, stage);
      case Pulse => BeatWorks(s1, w, job, row, base, queue, k);
    }
  }

  /** Where the job ends. */
  function EndState(ending: Ending, n: nat, maxAttempts: int): JobState {
    EndPath(ending, n, maxAttempts)[|EndPath(ending, n, maxAttempts)| - 1].state
  }

  /** A handled job has its new attempt and the path in its history, rests where the path ends, and is in
      the queue again exactly if it is to be retried. */
  ghost predicate Handled(db: Db, queue: seq<JobId>, db': Db, queue': seq<JobId>, job: JobId, script: Script)
    requires job in db.rows && StagesIn(script.work) <= 3
  {
    var row, n := db.rows[job], db.rows[job].attempts + 1;
    && job in db'.rows && db'.rows[job].attempts == n
    && db'.rows[job].state == EndState(script.ending, n, row.maxAttempts)
    && Moves(db'.log, job)
       == Moves(db.log, job) + StagePath(row.kind, n, StagesIn(script.work))
           + EndPath(script.ending, n, row.maxAttempts)
    && queue' == if db'.rows[job].state == Queued then [job] + queue else queue
  }

  /** What the last step of the work adds. */
  ghost predicate Ends(s: System, s': System, w: WorkerId, job: JobId, ending: Ending)
    requires job in s.db.rows
  {
    var row := s.db.rows[job];
    && job in s'.db.rows && s'.db.rows[job].attempts == row.attempts && w in s'.live && s'.live[w] == Leaving(job)
    && s'.db.rows[job].state == EndState(ending, row.attempts, row.maxAttempts)
    && Moves(s'.db.log, job) == Moves(s.db.log, job) + EndPath(ending, row.attempts, row.maxAttempts)
    && s'.queue == if s'.db.rows[job].state == Queued then [job] + s.queue else s.queue
  }

  /** The changes an effect adds to the job's history. */
  lemma EffectPath(s: System, s': System, who: Option<WorkerId>, c: Cas)
    requires TakesEffect(s, s', who, c)
    ensures
      var row := s.db.rows[c.job];
      var last := if row.attempts < row.maxAttempts then Queued else FailedTerminal;
      var more := if c.dst == FailedRetryable then [Change(last, row.attempts, false)] else [];
      Moves(s'.db.log, c.job) == Moves(s.db.log, c.job) + ([Change(c.dst, row.attempts, false)] + more)
  {
    var row := s.db.rows[c.job];
    var e := Moved(c.job, c.dst, row.attempts, who, false);
    MovesSnoc(s.db.log, e, c.job);
    if c.dst == FailedRetryable {
      var last := if row.attempts < row.maxAttempts then Queued else FailedTerminal;
      MovesSnoc(s.db.log + [e], Moved(c.job, last, row.attempts, None, false), c.job);
      assert s'.db.log == s.db.log + [e] + [Moved(c.job, last, row.attempts, None, false)];
    } else {
      assert s'.db.log == s.db.log + [e];
    }
  }

  lemma EffectEnds(s: System, s': System, w: WorkerId, c: Cas, ending: Ending)
    requires TakesEffect(s, s', Some(w), c) && w in s'.live && s'.live[w] == Leaving(c.job)
    requires ending.Succeeded? ==> c.dst == Completed
    requires ending.Raised? ==> c.dst == FailedTerminal
    requires ending.Refused? ==>
               c.dst == OutcomeState(ending.code) && c.dst in FAIL
                   && (c.dst == FailedRetryable <==> Retryable(ending.code))
    ensures Ends(s, s', w, c.job, ending)
  {
    EffectPath(s, s', Some(w), c);
  }

  lemma FinishEnds(s: System, w: WorkerId, job: JobId, row: Row, base: seq<Change>, queue: seq<JobId>, k: nat)
    requires Worked(s, w, job, row, base, queue, k) && (k == 0 || k == 3)
    ensures Ends(s, Next(s, Finish(w)), w, job, Succeeded)
  {
    PlainEffect(s, Finish(w));
    EffectEnds(s, Next(s, Finish(w)), w, CasOf(s, Finish(w)).value, Succeeded);
  }

  lemma RaiseEnds(s: System, w: WorkerId, job: JobId, row: Row, base: seq<Change>, queue: seq<JobId>, k: nat)
    requires Worked(s, w, job, row, base, queue, k)
    ensures Ends(s, Next(s, Raise(w)), w, job, Raised)
  {
    PlainEffect(s, Raise(w));
    EffectEnds(s, Next(s, Raise(w)), w, CasOf(s, Raise(w)).value, Raised);
  }

  lemma FailEnds(s: System, w: WorkerId, job: JobId, row: Row, base: seq<Change>, queue: seq<JobId>, k: nat,
                 code: ErrorCode)
    requires Worked(s, w, job, row, base, queue, k) && row.kind == Process
    ensures Ends(s, Next(s, Fail(w, code)), w, job, Refused(code))
  {
    FailureTargets(code, s.db.rows[job].state);
    FailEffect(s, w, code);
    EffectEnds(s, Next(s, Fail(w, code)), w, CasOf(s, Fail(w, code)).value, Refused(code));
  }

  lemma EndingEnds(s: System, w: WorkerId, job: JobId, row: Row, base: seq<Change>, queue: seq<JobId>, k: nat,
                   ending: Ending)
    requires Worked(s, w, job, row, base, queue, k)
    requires (ending.Succeeded? ==> k == 0 || k == 3) && (ending.Refused? ==> row.kind == Process)
    ensures Ends(s, Next(s, EndAction(w, ending)), w, job, ending)
  {
    match ending
    case Succeeded => FinishEnds(s, w, job, row, base, queue, k);
    case Raised => RaiseEnds(s, w, job, row, base, queue, k);
    case Refused(code) => FailEnds(s, w, job, row, base, queue, k, code);
  }

  /** A queued job whose delivery is handled goes through exactly the changes its work and its ending
      call for. */
  lemma HandledJob(s: System, w: WorkerId, job: JobId, script: Script)
    requires w in s.live && s.live[w] == Reserved(job) && InState(s.db, job, Queued) && StagesIn(script.work) <= 3
    requires script.ending.Succeeded? ==> StagesIn(script.work) == 0 || StagesIn(script.work) == 3
    requires script.ending.Refused? ==> s.db.rows[job].kind == Process
    ensures
      var s' := Exec(s, HandleActions(w, script));
      Handled(s.db, s.queue, s'.db, s'.queue, job, script)
  {
    var row, base := s.db.rows[job], Moves(s.db.log, job);
    TakeWorks(s, w, job);
    var s1 := Next(s, Take(w));
    BeatWorks(s1, w, job, row, base, s.queue, 0);
    var s2 := Next(s1, Beat(w));
    WorkWorks(s2, w, job, row, base, s.queue, script.work);
    var s3 := Exec(s2, WorkActions(w, script.work));
    WorkedEnds(s, s3, w, job, base, script);
    var last := [EndAction(w, script.ending), Ack(w)];
    ExecThreeParts(s, Take(w), Beat(w), WorkActions(w, script.work), last);
    assert HandleActions(w, script) == [Take(w), Beat(w)] + WorkActions(w, script.work) + last;
  }

  lemma WorkedEnds(s: System, s1: System, w: WorkerId, job: JobId, base: seq<Change>, script: Script)
    requires job in s.db.rows && base == Moves(s.db.log, job) && StagesIn(script.work) <= 3
    requires Worked(s1, w, job, s.db.rows[job], base, s.queue, StagesIn(script.work))
    requires script.ending.Succeeded? ==> StagesIn(script.work) == 0 || StagesIn(script.work) == 3
    requires script.ending.Refused? ==> s.db.rows[job].kind == Process
    ensures
      var s' := Exec(s1, [EndAction(w, script.ending), Ack(w)]);
      Handled(s.db, s.queue, s'.db, s'.queue, job, script)
  {
    EndingEnds(s1, w, job, s.db.rows[job], base, s.queue, StagesIn(script.work), script.ending);
    ExecTwo(s1, EndAction(w, script.ending), Ack(w));
    var s2 := Next(s1, EndAction(w, script.ending));
    assert Next(s2, Ack(w)).db == s2.db && Next(s2, Ack(w)).queue == s2.queue;
  }

  /** A delivery of a job that is not queued changes nothing in the database. */
  lemma SkippedJob(s: System, w: WorkerId, job: JobId, script: Script)
    requires w in s.live && s.live[w] == Reserved(job) && !InState(s.db, job, Queued)
    ensures Exec(s, HandleActions(w, script)).db == s.db
  {
    var s1 := Next(s, Take(w));
    var work, last := WorkActions(w, script.work), [EndAction(w, script.ending), Ack(w)];
    ExecThreeParts(s, Take(w), Beat(w), work, last);
    assert HandleActions(w, script) == [Take(w), Beat(w)] + work + last;
    assert Next(s1, Beat(w)) == s1;
    WorkIsInside(w, script.work);
    IdleRests(s1, w, work);
    IdleRests(s1, w, last);
  }

  /** The whole of it: a queued job is handled, and a finished one is completed, a raised one failed for
      good; any other delivery leaves the database alone. */
  ghost predicate Concludes(db: Db, queue: seq<JobId>, db': Db, queue': seq<JobId>, job: JobId, script: Script) {
    if InState(db, job, Queued) then
      && StagesIn(script.work) <= 3 && Handled(db, queue, db', queue', job, script)
      && (script.ending.Succeeded? ==> InState(db', job, Completed))
      && (script.ending.Raised? ==> InState(db', job, FailedTerminal))
    else db' == db
  }

  lemma HandleConcludes(s: System, w: WorkerId, job: JobId, script: Script)
    requires w in s.live && s.live[w] == Reserved(job) && StagesIn(script.work) <= 3
    requires script.ending.Succeeded? ==> StagesIn(script.work) == 0 || StagesIn(script.work) == 3
    requires script.ending.Refused? && job in s.db.rows ==> s.db.rows[job].kind == Process
    ensures
      var s' := Exec(s, HandleActions(w, script));
      Concludes(s.db, s.queue, s'.db, s'.queue, job, script)
  {
    if InState(s.db, job, Queued) { HandledJob(s, w, job, script); } else { SkippedJob(s, w, job, script); }
  }
}
