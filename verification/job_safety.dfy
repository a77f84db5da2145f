/** Safety of the job protocol in every reachable state. */
module JobSafety {
  import opened Wrappers
  import opened JobStates
  import opened JobProtocol
  import opened JobInvariant

  // ---- one step ---------------------------------------------------------------------------

  /** Two live workers never run the same job: the row names its only executor. */
  lemma Exclusive(s: System, w1: WorkerId, w2: WorkerId, job: JobId)
    requires Inv(s) && Holds(s, w1, job) && Holds(s, w2, job)
    ensures w1 == w2
  {
    assert HolderOk(s, w1) && HolderOk(s, w2);
  }

  /** A worker whose phase and whose job's row did not change is still in order. */
  lemma HolderKeeps(s: System, s': System, w: WorkerId)
    requires w in s.live && w in s'.live && HolderOk(s, w)
    requires s'.live[w] == s.live[w] && s'.now == s.now
    requires s.live[w].Running? && s.live[w].job in s.db.rows ==>
      s.live[w].job in s'.db.rows && s'.db.rows[s.live[w].job] == s.db.rows[s.live[w].job]
    ensures HolderOk(s', w)
  {
  }

  /** A step of worker `w` on the job it holds, which changes no other row. */
  lemma OwnStepKeeps(s: System, s': System, w: WorkerId, job: JobId)
    requires Inv(s) && Holds(s, w, job)
    requires DbOk(s'.db) && s'.now == s.now && s'.live.Keys == s.live.Keys
    requires s'.db.rows.Keys == s.db.rows.Keys
    requires forall j :: j in s.db.rows && j != job ==> s'.db.rows[j] == s.db.rows[j]
    requires forall v :: v in s.live && v != w ==> s'.live[v] == s.live[v]
    requires HolderOk(s', w)
    ensures Inv(s')
  {
    forall v | v in s'.live ensures HolderOk(s', v) {
      assert HolderOk(s, v);
      if v != w {
        if Holds(s, v, job) { Exclusive(s, v, w, job); }
        HolderKeeps(s, s', v);
      }
    }
  }

  lemma SubmitKeeps(s: System, id: JobId, kind: Kind, key: nat, maxAttempts: int)
    requires Inv(s)
    ensures Inv(SubmitStep(s, id, kind, key, maxAttempts))
  {
    var s' := SubmitStep(s, id, kind, key, maxAttempts);
    if s' != s {
      var db1 := Insert(s.db, id, kind, key, maxAttempts, s.now);
      InsertKeeps(s.db, id, kind, key, maxAttempts, s.now);
      MoveKeeps(db1, id, Validated, None, s.now);
      var db2 := Move(db1, id, Validated, None, s.now);
      MoveKeeps(db2, id, Queued, None, s.now);
      assert s'.db == Move(db2, id, Queued, None, s.now);
      forall v | v in s'.live ensures HolderOk(s', v) {
        assert HolderOk(s, v);
        HolderKeeps(s, s', v);
      }
    }
  }

  lemma TakeKeeps(s: System, w: WorkerId)
    requires Inv(s)
    ensures Inv(TakeStep(s, w))
  {
    var s' := TakeStep(s, w);
    if w in s.live && s.live[w].Reserved? && InState(s.db, s.live[w].job, Queued) {
      var job := s.live[w].job;
      ClaimKeeps(s.db, job, w, s.leaseS, s.now);
      forall v | v in s'.live ensures HolderOk(s', v) {
        assert HolderOk(s, v);
        if v != w { HolderKeeps(s, s', v); }
      }
    } else {
      forall v | v in s'.live ensures HolderOk(s', v) { assert HolderOk(s, v); }
    }
  }

  lemma BeatKeeps(s: System, w: WorkerId)
    requires Inv(s)
    ensures Inv(BeatStep(s, w))
  {
    var s' := BeatStep(s, w);
    if w in s.live && (s.live[w].Running? || s.live[w].Leaving?) {
      RenewKeeps(s.db, s.live[w].job, w, s.leaseS, s.now);
    }
    forall v | v in s'.live ensures HolderOk(s', v) { assert HolderOk(s, v); }
  }

  lemma NoteStepKeeps(s: System, w: WorkerId, stage: nat)
    requires Inv(s)
    ensures Inv(NoteStep(s, w, stage))
  {
    var s' := NoteStep(s, w, stage);
    if w in s.live && s.live[w].Running? { NoteKeeps(s.db, s.live[w].job, stage, w); }
    forall v | v in s'.live ensures HolderOk(s', v) { assert HolderOk(s, v); }
  }

  lemma HandlerKeeps(s: System, w: WorkerId)
    requires Inv(s) && w in s.live && s.live[w].Running?
    ensures Inv(Handler(s, w, s.live[w].job))
  {
    var job := s.live[w].job;
    assert HolderOk(s, w);
    MoveKeeps(s.db, job, FailedTerminal, Some(w), s.now);
    OwnStepKeeps(s, Handler(s, w, job), w, job);
  }

  lemma ReportKeeps(s: System, w: WorkerId)
    requires Inv(s)
    ensures Inv(ReportStep(s, w))
  {
    if w in s.live && s.live[w].Running? && s.live[w].cur != Training && s.live[w].reported < 3 {
      var Running(job, cur, n) := s.live[w];
      assert HolderOk(s, w);
      MoveKeeps(s.db, job, STAGES[n], Some(w), s.now);
      OwnStepKeeps(s, ReportStep(s, w), w, job);
    }
  }

  lemma FinishKeeps(s: System, w: WorkerId)
    requires Inv(s)
    ensures Inv(FinishStep(s, w))
  {
    if w in s.live && s.live[w].Running? && (s.live[w].reported == 0 || s.live[w].reported == 3) {
      var Running(job, cur, n) := s.live[w];
      assert HolderOk(s, w);
      MoveKeeps(s.db, job, Completed, Some(w), s.now);
      OwnStepKeeps(s, FinishStep(s, w), w, job);
    }
  }

  lemma FailKeeps(s: System, w: WorkerId, code: ErrorCode)
    requires Inv(s)
    ensures Inv(FailStep(s, w, code))
  {
    if w in s.live && s.live[w].Running? && s.live[w].cur != Training {
      var Running(job, cur, n) := s.live[w];
      assert HolderOk(s, w);
      FailureTargets(code, cur);
      FailMoves(s, w, code);
      OwnStepKeeps(s, FailStep(s, w, code), w, job);
    }
  }

  /** A refusal, by the result of its compare-and-set. */
  lemma FailOutcomes(s: System, w: WorkerId, code: ErrorCode)
    requires w in s.live && s.live[w].Running? && s.live[w].cur != Training
    ensures
      var job := s.live[w].job;
      var (db1, r) := Transition(s.db, job, s.live[w].cur, OutcomeState(code), Some(w), s.now);
      && (r == Done ==> job in db1.rows)
      && (r == Illegal ==> db1 == s.db && Next(s, Fail(w, code)) == Handler(s, w, job))
      && (r != Illegal && !(r == Done && OutcomeState(code) == FailedRetryable) ==>
            Next(s, Fail(w, code)) == s.(db := db1, live := s.live[w := Leaving(job)]))
      && (r == Done && OutcomeState(code) == FailedRetryable ==>
            var (db2, again) := AfterRetryable(db1, job, db1.rows[job].attempts, db1.rows[job].maxAttempts, s.now);
            Next(s, Fail(w, code)) ==
              s.(db := db2, queue := if again then Enqueued(s.queue, job) else s.queue,
                 live := s.live[w := Leaving(job)]))
  {
  }

  /** What a holder's failure does to the database. */
  lemma FailMoves(s: System, w: WorkerId, code: ErrorCode)
    requires DbOk(s.db) && w in s.live && s.live[w].Running? && s.live[w].cur in IN_FLIGHT && s.live[w].cur != Training
    requires InState(s.db, s.live[w].job, s.live[w].cur)
    ensures
      var s', job := FailStep(s, w, code), s.live[w].job;
      && DbOk(s'.db) && s'.now == s.now && s'.live == s.live[w := Leaving(job)]
      && s'.db.rows.Keys == s.db.rows.Keys && SettledState(s'.db.rows[job].state)
      && forall j :: j in s.db.rows && j != job ==> s'.db.rows[j] == s.db.rows[j]
  {
    var Running(job, cur, n) := s.live[w];
    var target := OutcomeState(code);
    FailureTargets(code, cur);
    FailOutcomes(s, w, code);
    if target == FailedRetryable {
      RetryMoves(s.db, job, w, s.now);
    } else {
      MoveKeeps(s.db, job, target, Some(w), s.now);
    }
  }

  lemma RetryMoves(db: Db, job: JobId, w: WorkerId, now: int)
    requires DbOk(db) && job in db.rows && db.rows[job].state in IN_FLIGHT && db.rows[job].state != Training
    ensures
      var db1 := Move(db, job, FailedRetryable, Some(w), now);
      var db2 := AfterRetryable(db1, job, db1.rows[job].attempts, db1.rows[job].maxAttempts, now).0;
      && DbOk(db2) && db2.rows.Keys == db.rows.Keys && SettledState(db2.rows[job].state)
      && forall j :: j in db.rows && j != job ==> db2.rows[j] == db.rows[j]
  {
    MoveKeeps(db, job, FailedRetryable, Some(w), now);
    AfterRetryableKeeps(Move(db, job, FailedRetryable, Some(w), now), job, now);
  }

  lemma ReapKeeps(s: System, job: JobId)
    requires Inv(s)
    ensures Inv(ReapStep(s, job))
  {
    var s' := ReapStep(s, job);
    if job in s.db.rows && Expired(s.db.rows[job], s.now) {
      MoveKeeps(s.db, job, FailedRetryable, None, s.now);
      AfterRetryableKeeps(Move(s.db, job, FailedRetryable, None, s.now), job, s.now);
      forall v | v in s'.live ensures HolderOk(s', v) {
        assert HolderOk(s, v);
        HolderKeeps(s, s', v);
      }
    }
  }

  // ---- steps that are cut short -----------------------------------------------------------

  /** A step outside the workers that changes one row, of a job nobody holds. */
  lemma ForeignStepKeeps(s: System, s': System, job: JobId)
    requires Inv(s) && DbOk(s'.db) && s'.now == s.now && s'.live == s.live
    requires forall v :: !Holds(s, v, job)
    requires forall j :: j in s.db.rows && j != job ==> j in s'.db.rows && s'.db.rows[j] == s.db.rows[j]
    ensures Inv(s')
  {
    forall v | v in s'.live ensures HolderOk(s', v) {
      assert HolderOk(s, v) && !Holds(s, v, job);
      HolderKeeps(s, s', v);
    }
  }

  lemma FreshIsUnheld(s: System, id: JobId)
    requires Inv(s) && id !in s.db.rows
    ensures forall v :: !Holds(s, v, id)
  {
    forall v ensures !Holds(s, v, id) {
      if v in s.live { assert HolderOk(s, v); }
    }
  }

  /** The database of a submission, however far it got. */
  lemma SubmitWrites(s: System, id: JobId, kind: Kind, key: nat, maxAttempts: int, writes: nat)
    requires Fresh(s, id, kind, key) && writes > 0
    ensures
      var s' := SubmitCutStep(s, id, kind, key, maxAttempts, writes);
      var db1 := Insert(s.db, id, kind, key, maxAttempts, s.now);
      var db2 := Move(db1, id, Validated, None, s.now);
      && s'.now == s.now && s'.live == s.live
      && s'.db == if writes == 1 then db1 else if writes == 2 then db2 else Move(db2, id, Queued, None, s.now)
  {
  }

  lemma SubmitCutDb(s: System, id: JobId, kind: Kind, key: nat, maxAttempts: int, writes: nat)
    requires DbOk(s.db) && Fresh(s, id, kind, key) && writes > 0
    ensures
      var s' := SubmitCutStep(s, id, kind, key, maxAttempts, writes);
      && DbOk(s'.db) && s'.now == s.now && s'.live == s.live
      && forall j :: j in s.db.rows && j != id ==> j in s'.db.rows && s'.db.rows[j] == s.db.rows[j]
  {
    SubmitWrites(s, id, kind, key, maxAttempts, writes);
    var db1 := Insert(s.db, id, kind, key, maxAttempts, s.now);
    InsertKeeps(s.db, id, kind, key, maxAttempts, s.now);
    MoveKeeps(db1, id, Validated, None, s.now);
    MoveKeeps(Move(db1, id, Validated, None, s.now), id, Queued, None, s.now);
  }

  lemma SubmitCutKeeps(s: System, id: JobId, kind: Kind, key: nat, maxAttempts: int, writes: nat)
    requires Inv(s)
    ensures Inv(SubmitCutStep(s, id, kind, key, maxAttempts, writes))
  {
    if Fresh(s, id, kind, key) && writes > 0 {
      FreshIsUnheld(s, id);
      SubmitCutDb(s, id, kind, key, maxAttempts, writes);
      ForeignStepKeeps(s, SubmitCutStep(s, id, kind, key, maxAttempts, writes), id);
    }
  }

  lemma RetryCutKeeps(s: System, w: WorkerId, writes: nat)
    requires Inv(s)
    ensures Inv(RetryCutStep(s, w, writes))
  {
    if w in s.live && s.live[w].Running? && s.live[w].cur != Training {
      var s', job := RetryCutStep(s, w, writes), s.live[w].job;
      assert HolderOk(s, w);
      MoveKeeps(s.db, job, FailedRetryable, Some(w), s.now);
      RetryMoves(s.db, job, w, s.now);
      forall v | v in s'.live ensures HolderOk(s', v) {
        assert HolderOk(s, v);
        if Holds(s, v, job) { Exclusive(s, v, w, job); }
        HolderKeeps(s, s', v);
      }
    }
  }

  lemma ReapCutKeeps(s: System, job: JobId, writes: nat)
    requires Inv(s)
    ensures Inv(ReapCutStep(s, job, writes))
  {
    if job in s.db.rows && Expired(s.db.rows[job], s.now) && writes > 0 {
      ReapWrites(s.db, job, s.now);
      forall v ensures !Holds(s, v, job) {
        if v in s.live { assert HolderOk(s, v); }
      }
      ForeignStepKeeps(s, ReapCutStep(s, job, writes), job);
    }
  }

  /** The table after the first and after the second write of a reap. */
  lemma ReapWrites(db: Db, job: JobId, now: int)
    requires DbOk(db) && job in db.rows && db.rows[job].state in IN_FLIGHT
    ensures
      var row := db.rows[job];
      var db1 := Transition(db, job, row.state, FailedRetryable, None, now).0;
      var db2 := ReapRow(db, job, row.state, row.attempts, row.maxAttempts, now).0;
      && DbOk(db1) && InState(db1, job, FailedRetryable)
      && DbOk(db2) && job in db2.rows && SettledState(db2.rows[job].state)
      && (forall j :: j in db.rows && j != job ==> j in db1.rows && db1.rows[j] == db.rows[j])
      && (forall j :: j in db.rows && j != job ==> j in db2.rows && db2.rows[j] == db.rows[j])
  {
    MoveKeeps(db, job, FailedRetryable, None, now);
    AfterRetryableKeeps(Move(db, job, FailedRetryable, None, now), job, now);
  }

  /** Every step keeps the invariant. */
  lemma NextKeeps(s: System, a: Action)
    requires Inv(s)
    ensures Inv(Next(s, a))
  {
    match a
    case Submit(id, kind, key, maxAttempts) => SubmitKeeps(s, id, kind, key, maxAttempts);
    case SubmitCut(id, kind, key, maxAttempts, writes) => SubmitCutKeeps(s, id, kind, key, maxAttempts, writes);
    case RetryCut(w, writes) => RetryCutKeeps(s, w, writes);
    case ReapCut(job, writes) => ReapCutKeeps(s, job, writes);
    case Take(w) => TakeKeeps(s, w);
    case Beat(w) => BeatKeeps(s, w);
    case Note(w, stage) => NoteStepKeeps(s, w, stage);
    case Report(w) => ReportKeeps(s, w);
    case Finish(w) => FinishKeeps(s, w);
    case Fail(w, code) => FailKeeps(s, w, code);
    case Raise(w) => if w in s.live && s.live[w].Running? { HandlerKeeps(s, w); }
    case Reap(job) => ReapKeeps(s, job);
    case Tick(d) => TickKeeps(s, d);
    case _ => IdleKeeps(s, a);
  }

  lemma IdleKeeps(s: System, a: Action)
    requires Inv(s) && (a.Reserve? || a.Ack? || a.Die? || a.Start? || a.Reconcile? || a.Flush? || a.Deliver?)
    ensures Inv(Next(s, a))
  {
    TransportKeeps(s, Next(s, a));
  }

  /** Steps that leave the database and the clock alone and start no job. */
  lemma TransportKeeps(s: System, s': System)
    requires Inv(s) && s'.db == s.db && s'.now == s.now
    requires forall v :: v in s'.live && s'.live[v].Running? ==> v in s.live && s'.live[v] == s.live[v]
    ensures Inv(s')
  {
    forall v | v in s'.live ensures HolderOk(s', v) {
      if v in s.live { assert HolderOk(s, v); }
    }
  }

  lemma TickKeeps(s: System, d: nat)
    requires Inv(s)
    ensures Inv(TickStep(s, d))
  {
    var s' := TickStep(s, d);
    forall v | v in s'.live ensures HolderOk(s', v) {
      assert HolderOk(s, v);
      if s' != s { assert LeasedAt(s, v, s.now + d); }
    }
  }
}
