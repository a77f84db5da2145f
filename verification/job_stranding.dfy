/** Which jobs are recoverable. A submission or a retry is several transactions; a process that stops
    between them can leave a job in `received`, `validated` or `failed_retryable`, where nothing picks
    it up. These are exactly the jobs maintenance does not secure. */
module JobStranding {
  import opened Wrappers
  import opened JobStates
  import opened JobProtocol
  import opened JobInvariant
  import opened JobSafety
  import opened JobRuns
  import opened JobRecovery

  predicate Unsettled(s: System, job: JobId) {
    job in s.db.rows && !SettledState(s.db.rows[job].state)
  }

  /** The step stops a process inside a submission or a retry of `job`, before the write that queues the
      job or ends it. */
  predicate Strands(s: System, a: Action, job: JobId) {
    match a
    case SubmitCut(id, kind, key, _, writes) => id == job && Fresh(s, id, kind, key) && writes in {1, 2}
    case RetryCut(w, writes) => Holds(s, w, job) && s.live[w].cur != Training && writes == 1
    case ReapCut(j, writes) => j == job && j in s.db.rows && Expired(s.db.rows[j], s.now) && writes == 1
    case _ => false
  }

  // ---- one step ---------------------------------------------------------------------------

  lemma SubmitUnsettles(s: System, a: Action, job: JobId)
    requires a.Submit? || a.SubmitCut?
    ensures Unsettled(Next(s, a), job) <==> Unsettled(s, job) || Strands(s, a, job)
  {
  }

  lemma ReapUnsettles(s: System, job: JobId, other: JobId)
    requires Inv(s)
    ensures Unsettled(ReapStep(s, job), other) <==> Unsettled(s, other)
  {
    if job in s.db.rows && Expired(s.db.rows[job], s.now) { ReapWrites(s.db, job, s.now); }
  }

  /** What a cut reap changes: the job's row only, and where that is left. */
  lemma ReapCutWrites(s: System, job: JobId, writes: nat)
    requires DbOk(s.db) && job in s.db.rows && Expired(s.db.rows[job], s.now) && writes > 0
    ensures
      var s' := ReapCutStep(s, job, writes);
      && s' == s.(db := s'.db) && s'.db.rows.Keys == s.db.rows.Keys
      && (SettledState(s'.db.rows[job].state) <==> writes > 1)
      && forall j :: j in s.db.rows && j != job ==> s'.db.rows[j] == s.db.rows[j]
  {
    ReapWrites(s.db, job, s.now);
    var s' := ReapCutStep(s, job, writes);
    var row := s.db.rows[job];
    if writes == 1 {
      assert s'.db == Transition(s.db, job, row.state, FailedRetryable, None, s.now).0;
    } else {
      assert s'.db == ReapRow(s.db, job, row.state, row.attempts, row.maxAttempts, s.now).0;
    }
  }

  lemma ReapCutUnsettles(s: System, job: JobId, writes: nat, other: JobId)
    requires Inv(s)
    ensures Unsettled(ReapCutStep(s, job, writes), other)
        <==> Unsettled(s, other) || Strands(s, ReapCut(job, writes), other)
  {
    if job in s.db.rows && Expired(s.db.rows[job], s.now) && writes > 0 { ReapCutWrites(s, job, writes); }
  }

  lemma RetryCutUnsettles(s: System, w: WorkerId, writes: nat, job: JobId)
    requires Inv(s)
    ensures Unsettled(Next(s, RetryCut(w, writes)), job) <==> Unsettled(s, job) || Strands(s, RetryCut(w, writes), job)
  {
    if w in s.live && s.live[w].Running? && s.live[w].cur != Training {
      assert HolderOk(s, w);
      RetryMoves(s.db, s.live[w].job, w, s.now);
    }
  }

  /** A worker that is not stopped leaves its job settled, and moves no other. */
  lemma WorkerSettles(s: System, a: Action, job: JobId)
    requires Inv(s) && (a.Report? || a.Finish? || a.Fail? || a.Raise?)
    ensures Unsettled(Next(s, a), job) <==> Unsettled(s, job)
  {
    if a.w in s.live && s.live[a.w].Running? {
      assert HolderOk(s, a.w);
      if a.Fail? {
        FailureTargets(a.code, s.live[a.w].cur);
        if s.live[a.w].cur != Training { FailMoves(s, a.w, a.code); }
      }
    }
  }

  lemma OthersSettle(s: System, a: Action, job: JobId)
    requires Inv(s) && !(a.Report? || a.Finish? || a.Fail? || a.Raise? || a.RetryCut?)
    requires !(a.Submit? || a.SubmitCut? || a.Reap? || a.ReapCut?)
    ensures Unsettled(Next(s, a), job) <==> Unsettled(s, job)
  {
  }

  /** A step leaves a job unsettled exactly if it was, or if the step cuts it short. */
  lemma NextUnsettles(s: System, a: Action, job: JobId)
    requires Inv(s)
    ensures Unsettled(Next(s, a), job) <==> Unsettled(s, job) || Strands(s, a, job)
  {
    if a.Submit? || a.SubmitCut? {
      SubmitUnsettles(s, a, job);
    } else if a.Reap? {
      ReapUnsettles(s, a.job, job);
    } else if a.ReapCut? {
      ReapCutUnsettles(s, a.job, a.writes, job);
    } else if a.RetryCut? {
      RetryCutUnsettles(s, a.w, a.writes, job);
    } else if a.Report? || a.Finish? || a.Fail? || a.Raise? {
      WorkerSettles(s, a, job);
    } else {
      OthersSettle(s, a, job);
    }
  }

  // ---- runs -------------------------------------------------------------------------------

  /** Step `i` of the run strands `job`. */
  predicate StrandedAt(s0: System, acts: seq<Action>, i: int, job: JobId) {
    0 <= i < |acts| && Strands(Exec(s0, acts[..i]), acts[i], job)
  }

  ghost predicate CutShort(s0: System, acts: seq<Action>, job: JobId) {
    exists i :: StrandedAt(s0, acts, i, job)
  }

  lemma CutShortSnoc(s0: System, acts: seq<Action>, a: Action, job: JobId)
    ensures CutShort(s0, acts + [a], job) <==> CutShort(s0, acts, job) || Strands(Exec(s0, acts), a, job)
  {
    var more := acts + [a];
    forall i | 0 <= i <= |acts| ensures more[..i] == acts[..i] {}
    assert acts[..|acts|] == acts;
    forall i ensures StrandedAt(s0, more, i, job) <==>
      StrandedAt(s0, acts, i, job) || (i == |acts| && Strands(Exec(s0, acts), a, job)) {}
    if Strands(Exec(s0, acts), a, job) { assert StrandedAt(s0, more, |acts|, job); }
    if i :| StrandedAt(s0, acts, i, job) { assert StrandedAt(s0, more, i, job); }
  }

  /** A job rests unsettled exactly if some step of the run cut its submission or its retry short. */
  lemma {:induction false} UnsettledIff(s0: System, acts: seq<Action>, job: JobId)
    requires Initial(s0)
    ensures Unsettled(Exec(s0, acts), job) <==> CutShort(s0, acts, job)
    decreases |acts|
  {
    if acts == [] {
    } else {
      var n := |acts| - 1;
      var init, a := acts[..n], acts[n];
      assert acts == init + [a];
      UnsettledIff(s0, init, job);
      ExecSnoc(s0, init, a);
      ExecKeeps(s0, init);
      NextUnsettles(Exec(s0, init), a, job);
      CutShortSnoc(s0, init, a, job);
    }
  }

  /** After any run, with flushes, duplicates, dead workers and processes stopped anywhere, one
      maintenance pass secures exactly the jobs that were not cut short. */
  lemma JobIsSafeIff(s: System, s0: System, acts: seq<Action>, jobs: seq<JobId>, ids: seq<JobId>, minAge: int,
                     job: JobId)
    requires Reachable(s, s0, acts) && job in s.db.rows
    requires ListsExpired(s, jobs) && ListsMissing(ReapAll(s, jobs), minAge, ids)
    ensures
      var s' := ReconcileStep(ReapAll(s, jobs), minAge, ids);
      && job in s'.db.rows && ListsMissing(s', minAge, [])
      && (Safe(s', minAge, s'.db.rows[job], job) <==> !CutShort(s0, acts, job))
  {
    ReachableInv(s, s0, acts);
    MaintenanceSecures(s, jobs, ids, minAge);
    UnsettledIff(s0, acts, job);
  }

  /** If no process stops inside a submission or a retry, no job is lost. */
  lemma NoJobIsLost(s: System, s0: System, acts: seq<Action>, jobs: seq<JobId>, ids: seq<JobId>, minAge: int)
    requires Reachable(s, s0, acts) && forall a :: a in acts ==> !(a.SubmitCut? || a.RetryCut? || a.ReapCut?)
    requires ListsExpired(s, jobs) && ListsMissing(ReapAll(s, jobs), minAge, ids)
    ensures
      var s' := ReconcileStep(ReapAll(s, jobs), minAge, ids);
      && s'.db.rows.Keys == s.db.rows.Keys
      && forall j :: j in s.db.rows ==> Safe(s', minAge, s'.db.rows[j], j)
  {
    ReachableInv(s, s0, acts);
    MaintenanceSecures(s, jobs, ids, minAge);
    forall j | j in s.db.rows ensures !CutShort(s0, acts, j) {
      forall i ensures !StrandedAt(s0, acts, i, j) {
        if 0 <= i < |acts| { assert acts[i] in acts; }
      }
    }
    forall j | j in s.db.rows ensures SettledState(s.db.rows[j].state) { UnsettledIff(s0, acts, j); }
  }

  // ---- stranded for ever ------------------------------------------------------------------

  /** `job` rests where it was. */
  predicate Rests(s: System, s': System, job: JobId) {
    job in s.db.rows && job in s'.db.rows && s'.db.rows[job].state == s.db.rows[job].state
  }

  /** A live worker moves no row but its own job's, which is in flight. */
  lemma WorkerLetsRest(s: System, a: Action, job: JobId)
    requires Inv(s) && Unsettled(s, job) && (a.Report? || a.Finish? || a.Fail? || a.Raise?)
    ensures Rests(s, Next(s, a), job)
  {
    if a.w in s.live && s.live[a.w].Running? { assert HolderOk(s, a.w); }
  }

  lemma RetryCutLetsRest(s: System, w: WorkerId, writes: nat, job: JobId)
    requires Inv(s) && Unsettled(s, job)
    ensures Rests(s, Next(s, RetryCut(w, writes)), job)
  {
    if w in s.live && s.live[w].Running? && s.live[w].cur != Training {
      assert HolderOk(s, w);
      RetryMoves(s.db, s.live[w].job, w, s.now);
    }
  }

  lemma ReapCutLetsRest(s: System, other: JobId, writes: nat, job: JobId)
    requires Inv(s) && Unsettled(s, job)
    ensures Rests(s, Next(s, ReapCut(other, writes)), job)
  {
    if other in s.db.rows && Expired(s.db.rows[other], s.now) && writes > 0 { ReapCutWrites(s, other, writes); }
  }

  lemma NextStrands(s: System, a: Action, job: JobId)
    requires Inv(s) && Unsettled(s, job)
    ensures Rests(s, Next(s, a), job)
  {
    if a.Report? || a.Finish? || a.Fail? || a.Raise? {
      WorkerLetsRest(s, a, job);
    } else if a.RetryCut? {
      RetryCutLetsRest(s, a.w, a.writes, job);
    } else if a.ReapCut? {
      ReapCutLetsRest(s, a.job, a.writes, job);
    } else if a.Reap? {
      if a.job in s.db.rows && Expired(s.db.rows[a.job], s.now) { ReapWrites(s.db, a.job, s.now); }
    } else {
      OthersRest(s, a, job);
    }
  }

  lemma OthersRest(s: System, a: Action, job: JobId)
    requires Unsettled(s, job) && !(a.Report? || a.Finish? || a.Fail? || a.Raise? || a.Reap?)
    requires !(a.RetryCut? || a.ReapCut?)
    ensures Rests(s, Next(s, a), job)
  {
  }

  /** No later step moves such a job: no delivery, no maintenance, and no new submission of its key. */
  lemma {:induction false} StrandedForEver(s: System, acts: seq<Action>, job: JobId)
    requires Inv(s) && Unsettled(s, job)
    ensures Rests(s, Exec(s, acts), job)
    decreases acts
  {
    if acts != [] {
      NextStrands(s, acts[0], job);
      NextKeeps(s, acts[0]);
      StrandedForEver(Next(s, acts[0]), acts[1..], job);
    }
  }

  // ---- the cuts occur ---------------------------------------------------------------------

  /** The empty system with leases of ten. */
  const START: System := System(Db(map[], []), [], map[], 0, 10, map[])

  const SUBMITTED: Row := Row(Process, 7, Queued, 0, 3, None, None, 0)

  /** A submission stopped after its first, second and third write. The third leaves the job queued but
      not enqueued. */
  lemma SubmissionCuts(writes: nat) returns (s: System)
    requires 1 <= writes <= 3
    ensures Initial(START) && s == Exec(START, [SubmitCut(0, Process, 7, 3, writes)])
    ensures
      var state := if writes == 1 then Received else if writes == 2 then Validated else Queued;
      Sees(s, SUBMITTED.(state := state), 0, [], map[], {})
  {
    s := Next(START, SubmitCut(0, Process, 7, 3, writes));
    assert Exec(START, [SubmitCut(0, Process, 7, 3, writes)]) == s;
  }

  lemma Ages(s: System)
    requires Sees(s, SUBMITTED, 0, [], map[], {})
    ensures Sees(Next(s, Tick(16)), SUBMITTED, 16, [], map[], {})
  {
  }

  lemma Reconciles(s: System)
    requires Sees(s, SUBMITTED, 16, [], map[], {})
    ensures Sees(Next(s, Reconcile(15, [0])), SUBMITTED, 16, [0], map[], {})
  {
    assert ListsMissing(s, 15, [0]);
    assert PushAll([], [0]) == PushAll([0], []) by { assert Enqueued([], 0) == [0]; }
  }

  /** Reconciling repairs a job that was queued but not enqueued, once it is old enough. */
  lemma MissingEnqueueIsRepaired()
    ensures
      var s := Exec(START, [SubmitCut(0, Process, 7, 3, 3), Tick(16), Reconcile(15, [0])]);
      InState(s.db, 0, Queued) && s.queue == [0]
  {
    var s1 := SubmissionCuts(3);
    assert Exec(START, [SubmitCut(0, Process, 7, 3, 3)]) == Next(START, SubmitCut(0, Process, 7, 3, 3));
    Ages(s1);
    Reconciles(Next(s1, Tick(16)));
    ExecThree(START, SubmitCut(0, Process, 7, 3, 3), Tick(16), Reconcile(15, [0]));
  }

  /** A worker runs job 0. */
  lemma FirstWorkerRuns() returns (acts: seq<Action>, s: System)
    ensures s == Exec(START, acts)
    ensures Sees(s, Claimed(SUBMITTED, 1, 0), 0, [], map[1 := Running(0, Parsing, 0)], {1})
  {
    var s1 := FirstSubmission(START);
    s := NewWorkerClaims(s1, SUBMITTED, map[], {}, 1);
    assert map[][1 := Running(0, Parsing, 0)] == map[1 := Running(0, Parsing, 0)];
    acts := [Submit(0, Process, 7, 3)] + [Start(1), Reserve(1), Take(1)];
    ExecConcat(START, [Submit(0, Process, 7, 3)], [Start(1), Reserve(1), Take(1)]);
  }

  /** A worker that stops between the two transitions of a retry leaves the job in
      `failed_retryable`. */
  lemma WorkerCutStrands() returns (acts: seq<Action>)
    ensures InState(Exec(START, acts).db, 0, FailedRetryable)
  {
    var before, s := FirstWorkerRuns();
    acts := before + [RetryCut(1, 1)];
    ExecSnoc(START, before, RetryCut(1, 1));
  }

  /** So does a reaper. */
  lemma ReaperCutStrands() returns (acts: seq<Action>)
    ensures InState(Exec(START, acts).db, 0, FailedRetryable)
  {
    var before, s := FirstWorkerRuns();
    var s' := DiesAndExpires(s, Claimed(SUBMITTED, 1, 0));
    ReapCutMoves(s', Claimed(SUBMITTED, 1, 0));
    acts := before + [Die(1), Tick(11)] + [ReapCut(0, 1)];
    ExecConcat(START, before, [Die(1), Tick(11)]);
    ExecSnoc(START, before + [Die(1), Tick(11)], ReapCut(0, 1));
  }

  lemma ReapCutMoves(s: System, row: Row)
    requires Sees(s, row, s.now, [], map[], {1}) && Expired(row, s.now)
    ensures InState(Next(s, ReapCut(0, 1)).db, 0, FailedRetryable)
  {
  }
}
