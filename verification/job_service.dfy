/** The imperative side of the job protocol: the database, the queue, the service functions and the
    worker as objects that change in place. Every method is tied to the step function it performs,
    and a whole `handle` call to the steps it is made of. */
module JobService {
  import opened Wrappers
  import opened JobStates
  import opened JobProtocol
  import opened JobInvariant
  import opened JobRuns
  import opened JobSafety
  import opened JobRecovery
  import opened JobScripts

  class Database {
    var rows: map<JobId, Row>
    var log: seq<Event>

    function View(): Db
      reads this
    {
      Db(rows, log)
    }

    constructor ()
      ensures View() == Db(map[], [])
    {
      rows, log := map[], [];
    }

    /** One transaction: the guarded update and, if it hit, its event row. */
    method Transition(job: JobId, src: JobState, dst: JobState, who: Option<WorkerId>, now: int) returns (r: CasResult)
      modifies this
      ensures (View(), r) == JobProtocol.Transition(old(View()), job, src, dst, who, now)
    {
      if dst !in Transitions(src) { return Illegal; }
      if job !in rows || rows[job].state != src { return NotInSource; }
      rows := rows[job := rows[job].(state := dst, updated := now)];
      log := log + [Moved(job, dst, rows[job].attempts, who, false)];
      return Done;
    }

    method AddEvent(job: JobId, stage: nat, w: WorkerId)
      modifies this
      ensures View() == AddNote(old(View()), job, stage, w)
    {
      if job in rows { log := log + [Noted(job, stage, rows[job].attempts, Some(w))]; }
    }
  }

  class JobQueue {
    var main: seq<JobId>
    var processing: map<WorkerId, seq<JobId>>

    constructor ()
      ensures main == [] && processing == map[]
    {
      main, processing := [], map[];
    }

    method Enqueue(job: JobId)
      modifies this
      ensures main == Enqueued(old(main), job) && processing == old(processing)
    {
      main := [job] + main;
    }

    method Reserve(w: WorkerId) returns (job: Option<JobId>)
      modifies this
      ensures old(main) == [] ==> job == None && main == [] && processing == old(processing)
      ensures old(main) != [] ==>
        && job.Some? && old(main) == main + [job.value]
        && processing == old(processing)[w := [job.value] + ListOf(old(processing), w)]
    {
      if main == [] { return None; }
      job := Some(main[|main| - 1]);
      main := main[..|main| - 1];
      processing := processing[w := [job.value] + ListOf(processing, w)];
    }

    method Ack(w: WorkerId, job: JobId)
      modifies this
      ensures main == old(main) && processing == old(processing)[w := Without(ListOf(old(processing), w), job)]
    {
      processing := processing[w := Without(ListOf(processing, w), job)];
    }

    /** The draining loop: one LMOVE from the right end of the worker's list to the left end of the
        queue at a time. A missing list is an empty one. */
    method ReleaseWorker(w: WorkerId) returns (n: nat)
      modifies this
      ensures main == ListOf(old(processing), w) + old(main)
      ensures processing == old(processing)[w := []]
      ensures n == |ListOf(old(processing), w)|
    {
      n := 0;
      ghost var held := ListOf(processing, w);
      processing := processing[w := ListOf(processing, w)];
      while processing[w] != []
        invariant w in processing && n <= |held| && processing[w] == held[..|held| - n]
        invariant processing == old(processing)[w := processing[w]]
        invariant main == held[|held| - n..] + old(main)
        decreases |processing[w]|
      {
        var list := processing[w];
        var job := list[|list| - 1];
        processing := processing[w := list[..|list| - 1]];
        main := [job] + main;
        n := n + 1;
      }
    }
  }

  /** The system these objects are part of: the clock, the other live workers and the lease length
      are the environment's. */
  ghost function World(db: Database, queue: JobQueue, now: int, leaseS: nat, live: map<WorkerId, Phase>): System
    reads db, queue
  {
    System(db.View(), queue.main, queue.processing, now, leaseS, live)
  }

  /** The insert under the unique constraint; a submission that lost the race gets the winner's job. */
  method InsertJob(db: Database, id: JobId, kind: Kind, key: nat, maxAttempts: int, now: int)
    returns (job: JobId, created: bool)
    requires id !in db.rows
    modifies db
    ensures created <==> !exists j :: j in old(db.rows) && SubmittedAs(old(db.rows)[j], kind, key)
    ensures created ==> job == id && db.View() == Insert(old(db.View()), id, kind, key, maxAttempts, now)
    ensures !created ==> job in db.rows && SubmittedAs(db.rows[job], kind, key) && db.View() == old(db.View())
  {
    if j :| j in db.rows && SubmittedAs(db.rows[j], kind, key) {
      return j, false;
    }
    db.rows := db.rows[id := Row(kind, key, Received, 0, maxAttempts, None, None, now)];
    db.log := db.log + [Moved(id, Received, 0, None, false)];
    return id, true;
  }

  method SubmitJob(db: Database, queue: JobQueue, id: JobId, kind: Kind, key: nat, maxAttempts: int, now: int,
                   ghost leaseS: nat, ghost live: map<WorkerId, Phase>)
    returns (job: JobId, created: bool)
    requires id !in db.rows
    modifies db, queue
    ensures World(db, queue, now, leaseS, live)
         == Next(old(World(db, queue, now, leaseS, live)), Submit(id, kind, key, maxAttempts))
    ensures job in db.rows && SubmittedAs(db.rows[job], kind, key)
    ensures created <==> job == id
    ensures !created ==> db.rows == old(db.rows) && queue.main == old(queue.main)
  {
    if j :| j in db.rows && SubmittedAs(db.rows[j], kind, key) {
      return j, false;
    }
    job, created := InsertJob(db, id, kind, key, maxAttempts, now);
    if !created { return; }
    var _ := db.Transition(id, Received, Validated, None, now);
    var _ := db.Transition(id, Validated, Queued, None, now);
    queue.Enqueue(id);
    return id, true;
  }

  method Claim(db: Database, job: JobId, w: WorkerId, leaseS: nat, first: JobState, now: int) returns (r: Option<Row>)
    modifies db
    ensures InState(old(db.View()), job, Queued) ==>
      && db.View() == ClaimRow(old(db.View()), job, w, first, leaseS, now) && r == Some(db.rows[job])
      && db.rows[job].state == first && db.rows[job].worker == Some(w) && db.rows[job].lease == Some(now + leaseS)
      && db.rows[job].attempts == old(db.rows)[job].attempts + 1
    ensures !InState(old(db.View()), job, Queued) ==> db.View() == old(db.View()) && r == None
  {
    if job !in db.rows || db.rows[job].state != Queued { return None; }
    var row := db.rows[job];
    row := row.(state := first, worker := Some(w), attempts := row.attempts + 1, lease := Some(now + leaseS),
                updated := now);
    db.rows := db.rows[job := row];
    db.log := db.log + [Moved(job, first, row.attempts, Some(w), true)];
    return Some(row);
  }

  method Heartbeat(db: Database, w: WorkerId, job: Option<JobId>, leaseS: nat, now: int)
    modifies db
    ensures db.View() == if job.Some? then Renew(old(db.View()), job.value, w, leaseS, now) else old(db.View())
  {
    if job.Some? && job.value in db.rows && db.rows[job.value].worker == Some(w) {
      db.rows := db.rows[job.value := db.rows[job.value].(lease := Some(now + leaseS))];
    }
  }

  // ---- maintenance ------------------------------------------------------------------------

  lemma {:induction false} ReapAllSnoc(s: System, jobs: seq<JobId>, job: JobId)
    ensures ReapAll(s, jobs + [job]) == ReapStep(ReapAll(s, jobs), job)
    decreases jobs
  {
    if jobs == [] {
      assert jobs + [job] == [job];
      assert [job][1..] == [];
    } else {
      assert (jobs + [job])[1..] == jobs[1..] + [job];
      ReapAllSnoc(ReapStep(s, jobs[0]), jobs[1..], job);
    }
  }

  /** One snapshot of the expired rows, then a guarded move and a requeue for each of them. Nothing
      else runs meanwhile, so every compare-and-set hits. */
  method ReapExpiredLeases(db: Database, queue: JobQueue, now: int, ghost leaseS: nat, ghost live: map<WorkerId, Phase>)
    returns (moved: seq<JobId>)
    modifies db, queue
    ensures World(db, queue, now, leaseS, live) == ReapAll(old(World(db, queue, now, leaseS, live)), moved)
    ensures forall j :: j in moved <==>
              && j in old(db.rows) && old(db.rows)[j].state in IN_FLIGHT
              && old(db.rows)[j].lease.Some? && old(db.rows)[j].lease.value < now
  {
    ghost var before := World(db, queue, now, leaseS, live);
    var snapshot := map j | j in db.rows && Expired(db.rows[j], now) :: db.rows[j];
    var todo := snapshot.Keys;
    moved := [];
    while todo != {}
      invariant World(db, queue, now, leaseS, live) == ReapAll(before, moved)
      invariant todo <= snapshot.Keys
      invariant forall j :: j in moved <==> j in snapshot && j !in todo
      invariant forall j :: j in todo ==> j in db.rows && db.rows[j] == snapshot[j]
      decreases todo
    {
      var j :| j in todo;
      todo := todo - {j};
      ReapAllSnoc(before, moved, j);
      ghost var at := World(db, queue, now, leaseS, live);
      var row := snapshot[j];
      ReapOne(db, queue, j, row, now, leaseS, live);
      moved := moved + [j];
    }
  }

  method ReapOne(db: Database, queue: JobQueue, job: JobId, row: Row, now: int, ghost leaseS: nat,
                 ghost live: map<WorkerId, Phase>)
    requires job in db.rows && db.rows[job] == row && Expired(row, now)
    modifies db, queue
    ensures World(db, queue, now, leaseS, live) == ReapStep(old(World(db, queue, now, leaseS, live)), job)
    ensures forall j :: j in old(db.rows) && j != job ==> j in db.rows && db.rows[j] == old(db.rows)[j]
  {
    var r := db.Transition(job, row.state, FailedRetryable, None, now);
    assert r == Done;
    if row.attempts < row.maxAttempts {
      var _ := db.Transition(job, FailedRetryable, Queued, None, now);
      queue.Enqueue(job);
    } else {
      var _ := db.Transition(job, FailedRetryable, FailedTerminal, None, now);
    }
  }

  method ReconcileQueue(db: Database, queue: JobQueue, minAge: int, now: int, ghost leaseS: nat,
                        ghost live: map<WorkerId, Phase>)
    returns (missing: seq<JobId>)
    modifies queue
    ensures ListsMissing(old(World(db, queue, now, leaseS, live)), minAge, missing)
    ensures World(db, queue, now, leaseS, live)
        == ReconcileStep(old(World(db, queue, now, leaseS, live)), minAge, missing)
  {
    ghost var before := World(db, queue, now, leaseS, live);
    var present := set j | j in queue.main;
    var ids := set j | j in db.rows && db.rows[j].state == Queued && db.rows[j].updated < now - minAge;
    var todo := ids - present;
    missing := [];
    while todo != {}
      invariant todo <= ids - present
      invariant forall j :: j in missing <==> j in ids - present && j !in todo
      decreases todo
    {
      var j :| j in todo;
      todo := todo - {j};
      missing := missing + [j];
    }
    var i := 0;
    while i < |missing|
      invariant 0 <= i <= |missing|
      invariant queue.processing == before.processing
      invariant PushAll(before.queue, missing) == PushAll(queue.main, missing[i..])
    {
      queue.Enqueue(missing[i]);
      i := i + 1;
    }
  }

  /** `Worker.maintenance` leaves exactly the jobs that rested in a settled state finished, queued for
      delivery, just queued, or leased, and a second reconcile nothing to do. */
  method Maintenance(db: Database, queue: JobQueue, minAge: int, now: int, ghost leaseS: nat,
                     ghost live: map<WorkerId, Phase>)
    requires Inv(World(db, queue, now, leaseS, live))
    modifies db, queue
    ensures Inv(World(db, queue, now, leaseS, live)) && db.rows.Keys == old(db.rows.Keys)
    ensures forall j :: j in db.rows ==>
      (Safe(World(db, queue, now, leaseS, live), minAge, db.rows[j], j) <==> SettledState(old(db.rows)[j].state))
    ensures ListsMissing(World(db, queue, now, leaseS, live), minAge, [])
  {
    ghost var before := World(db, queue, now, leaseS, live);
    var moved := ReapExpiredLeases(db, queue, now, leaseS, live);
    var missing := ReconcileQueue(db, queue, minAge, now, leaseS, live);
    MaintenanceSecures(before, moved, missing, minAge);
  }

  // ---- the worker -------------------------------------------------------------------------

  /** The second half of a retryable failure: the row is read again before it decides. */
  method RetryOrGiveUp(db: Database, queue: JobQueue, job: JobId, now: int)
    requires job in db.rows
    modifies db, queue
    ensures
      var row := old(db.rows)[job];
      var (db', again) := AfterRetryable(old(db.View()), job, row.attempts, row.maxAttempts, now);
      && db.View() == db'
      && queue.main == (if again then Enqueued(old(queue.main), job) else old(queue.main))
      && queue.processing == old(queue.processing)
  {
    var refreshed := db.rows[job];
    if refreshed.attempts < refreshed.maxAttempts {
      var _ := db.Transition(job, FailedRetryable, Queued, None, now);
      queue.Enqueue(job);
    } else {
      var _ := db.Transition(job, FailedRetryable, FailedTerminal, None, now);
    }
  }

  /** A report, by the result of its compare-and-set. */
  lemma ReportOutcomes(s: System, w: WorkerId)
    requires w in s.live && s.live[w].Running? && s.live[w].cur != Training && s.live[w].reported < 3
    ensures
      var Running(job, cur, n) := s.live[w];
      var (db1, r) := Transition(s.db, job, cur, STAGES[n], Some(w), s.now);
      Next(s, Report(w)) ==
        if STAGES[n] == cur then s.(live := s.live[w := Running(job, cur, n + 1)])
        else if r == Illegal then Handler(s, w, job)
        else s.(db := db1, live := s.live[w := Running(job, if r == Done then STAGES[n] else cur, n + 1)])
    ensures
      var Running(job, cur, n) := s.live[w];
      var (db1, r) := Transition(s.db, job, cur, STAGES[n], Some(w), s.now);
      r != Done ==> db1 == s.db
  {
  }

  class Worker {
    const id: WorkerId
    const leaseS: nat
    const db: Database
    const queue: JobQueue
    var phase: Phase

    constructor (id: WorkerId, leaseS: nat, db: Database, queue: JobQueue)
      ensures this.id == id && this.leaseS == leaseS && this.db == db && this.queue == queue && phase == Idle
    {
      this.id, this.leaseS, this.db, this.queue, phase := id, leaseS, db, queue, Idle;
    }

    /** The system with this worker among the `others`. */
    ghost function Sys(now: int, others: map<WorkerId, Phase>): System
      reads this, db, queue
    {
      World(db, queue, now, leaseS, others[id := phase])
    }

    method ReserveNext(now: int, ghost others: map<WorkerId, Phase>)
      requires phase == Idle
      modifies this, queue
      ensures Sys(now, others) == Next(old(Sys(now, others)), Reserve(id))
      ensures old(queue.main) == [] ==> phase == Idle
      ensures old(queue.main) != [] ==> phase == Reserved(old(queue.main)[|old(queue.main)| - 1])
    {
      var job := queue.Reserve(id);
      if job.Some? { phase := Reserved(job.value); }
    }

    method TakeJob(now: int, ghost others: map<WorkerId, Phase>)
      requires phase.Reserved?
      modifies this, db, queue
      ensures Sys(now, others) == Next(old(Sys(now, others)), Take(id))
      ensures phase == Idle || (phase.Running? && phase.reported == 0 && old(phase.job) in old(db.rows)
                                && phase.cur == FirstState(old(db.rows)[old(phase.job)].kind))
    {
      ghost var s0 := Sys(now, others);
      var job := phase.job;
      if job !in db.rows {
        Drop(job, now, others);
        return;
      }
      var first := if db.rows[job].kind == Train then Training else Parsing;
      var claimed := Claim(db, job, id, leaseS, first, now);
      if claimed == None {
        assert Sys(now, others) == s0;
        Drop(job, now, others);
        return;
      }
      assert Sys(now, others) == s0.(db := db.View());
      Become(Running(job, first, 0), now, others);
    }

    /** A delivery that is not this worker's to run. */
    method Drop(job: JobId, now: int, ghost others: map<WorkerId, Phase>)
      modifies this, queue
      ensures Sys(now, others) == Acked(old(Sys(now, others)), id, job) && phase == Idle
    {
      queue.Ack(id, job);
      phase := Idle;
    }

    /** The progress callback: the local state follows only a compare-and-set that hit. */
    method Progress(now: int, ghost others: map<WorkerId, Phase>)
      requires phase.Running? && phase.cur != Training && phase.reported < 3
      modifies this, db
      ensures Sys(now, others) == Next(old(Sys(now, others)), Report(id))
      ensures phase.Leaving? || (phase.Running? && phase.cur != Training && phase.reported == old(phase.reported) + 1)
    {
      ghost var s0 := Sys(now, others);
      var Running(job, cur, n) := phase;
      var target := STAGES[n];
      ReportOutcomes(s0, id);
      if target == cur {
        Become(Running(job, cur, n + 1), now, others);
        return;
      }
      var r := db.Transition(job, cur, target, Some(id), now);
      assert (db.View(), r) == JobProtocol.Transition(s0.db, job, cur, target, Some(id), now);
      assert Sys(now, others) == s0.(db := db.View());
      if r == Illegal {
        HandleException(job, now, others);
      } else {
        Become(Running(job, if r == Done then target else cur, n + 1), now, others);
      }
    }

    /** A change of the worker's local state only. */
    method Become(p: Phase, now: int, ghost others: map<WorkerId, Phase>)
      modifies this
      ensures phase == p
      ensures Sys(now, others) == old(Sys(now, others)).(live := old(Sys(now, others)).live[id := p])
    {
      phase := p;
    }

    method HandleException(job: JobId, now: int, ghost others: map<WorkerId, Phase>)
      modifies this, db
      ensures Sys(now, others) == Handler(old(Sys(now, others)), id, job)
      ensures phase == Leaving(job)
    {
      if job in db.rows && db.rows[job].state !in TERMINAL {
        var _ := db.Transition(job, db.rows[job].state, FailedTerminal, Some(id), now);
      }
      phase := Leaving(job);
    }

    method Complete(now: int, ghost others: map<WorkerId, Phase>)
      requires phase.Running? && (phase.reported == 0 || phase.reported == 3)
      modifies this, db
      ensures Sys(now, others) == Next(old(Sys(now, others)), Finish(id)) && phase.Leaving?
    {
      var Running(job, cur, _) := phase;
      var r := db.Transition(job, cur, Completed, Some(id), now);
      if r == Illegal {
        HandleException(job, now, others);
      } else {
        phase := Leaving(job);
      }
    }

    method Refuse(code: ErrorCode, now: int, ghost others: map<WorkerId, Phase>)
      requires phase.Running? && phase.cur != Training
      modifies this, db, queue
      ensures Sys(now, others) == Next(old(Sys(now, others)), Fail(id, code)) && phase.Leaving?
    {
      ghost var s0 := Sys(now, others);
      var Running(job, cur, _) := phase;
      var target := OutcomeState(code);
      FailOutcomes(s0, id, code);
      var r := db.Transition(job, cur, target, Some(id), now);
      assert (db.View(), r) == JobProtocol.Transition(s0.db, job, cur, target, Some(id), now);
      assert Sys(now, others) == s0.(db := db.View());
      if r == Illegal {
        HandleException(job, now, others);
        return;
      }
      if target == FailedRetryable && r == Done { RetryOrGiveUp(db, queue, job, now); }
      Become(Leaving(job), now, others);
    }

    method End(ending: Ending, now: int, ghost others: map<WorkerId, Phase>)
      requires phase.Running? && (ending.Succeeded? ==> phase.reported == 0 || phase.reported == 3)
      requires ending.Refused? ==> phase.cur != Training
      modifies this, db, queue
      ensures Sys(now, others) == Next(old(Sys(now, others)), EndAction(id, ending))
      ensures phase.Leaving?
    {
      match ending
      case Succeeded => Complete(now, others);
      case Refused(code) => Refuse(code, now, others);
      case Raised => HandleException(phase.job, now, others);
    }

    method Leave(now: int, ghost others: map<WorkerId, Phase>)
      requires phase.Leaving?
      modifies this, queue
      ensures Sys(now, others) == Next(old(Sys(now, others)), Ack(id)) && phase == Idle
    {
      queue.Ack(id, phase.job);
      phase := Idle;
    }

    method Beat(now: int, ghost others: map<WorkerId, Phase>)
      requires phase.Running? || phase.Leaving?
      modifies db
      ensures Sys(now, others) == Next(old(Sys(now, others)), Action.Beat(id)) && phase == old(phase)
    {
      Heartbeat(db, id, Some(phase.job), leaseS, now);
    }

    /** A stage outside the table only leaves an event. */
    method MentionStage(stage: nat, now: int, ghost others: map<WorkerId, Phase>)
      requires phase.Running? || phase.Leaving?
      modifies db
      ensures Sys(now, others) == Next(old(Sys(now, others)), Note(id, stage)) && phase == old(phase)
    {
      if phase.Running? && phase.cur != Training { db.AddEvent(phase.job, stage, id); }
    }

    /** One stage report; nothing once an exception ended the job, nothing in a training run. */
    method ReportStage(now: int, ghost others: map<WorkerId, Phase>)
      requires phase.Leaving? || (phase.Running? && (phase.cur == Training || phase.reported < 3))
      modifies this, db
      ensures Sys(now, others) == Next(old(Sys(now, others)), Report(id))
      ensures phase.Leaving? || (phase.Running? && phase == old(phase) && phase.cur == Training)
           || (phase.Running? && phase.cur != Training && old(phase).Running? && old(phase).cur != Training
               && phase.reported == old(phase).reported + 1)
    {
      if phase.Running? && phase.cur != Training { Progress(now, others); }
    }

    /** Where the worker stands after work that reported `n` stages. */
    predicate Stands(job: Phase, n: nat)
      requires job.Running?
      reads this
    {
      || phase.Leaving?
      || (phase.Running? && (phase.cur == Training <==> job.cur == Training)
          && phase.reported == if phase.cur == Training then 0 else n)
    }

    /** One item of the work. */
    method DoItem(item: Work, ghost job: Phase, ghost n: nat, now: int, ghost others: map<WorkerId, Phase>)
      requires job.Running? && Stands(job, n) && (item.Stage? ==> n < 3)
      modifies this, db
      ensures Sys(now, others) == Next(old(Sys(now, others)), WorkAction(id, item))
      ensures Stands(job, n + if item.Stage? then 1 else 0)
    {
      match item
      case Stage => ReportStage(now, others);
      case Mention(stage) => MentionStage(stage, now, others);
      case Pulse => Beat(now, others);
    }

    method DoWork(work: seq<Work>, now: int, ghost others: map<WorkerId, Phase>)
      requires phase.Running? && phase.reported == 0 && StagesIn(work) <= 3
      modifies this, db
      ensures Sys(now, others) == Exec(old(Sys(now, others)), WorkActions(id, work))
      ensures Stands(old(phase), StagesIn(work))
    {
      ghost var s0, job, acts, n := Sys(now, others), phase, [], 0;
      var i := 0;
      while i < |work|
        invariant 0 <= i <= |work| && acts == WorkActions(id, work[..i]) && n == StagesIn(work[..i])
        invariant Stands(job, n) && Sys(now, others) == Exec(s0, acts)
      {
        StagesGrow(work, i);
        assert work[..i + 1][..i] == work[..i];
        ExecSnoc(s0, acts, WorkAction(id, work[i]));
        DoItem(work[i], job, n, now, others);
        acts, n := WorkActions(id, work[..i + 1]), StagesIn(work[..i + 1]);
        i := i + 1;
      }
      assert work[..|work|] == work;
    }

    method EndAndLeave(ending: Ending, now: int, ghost others: map<WorkerId, Phase>)
      requires phase.Leaving? || (phase.Running? && (ending.Succeeded? ==> phase.reported == 0 || phase.reported == 3)
                                  && (ending.Refused? ==> phase.cur != Training))
      modifies this, db, queue
      ensures Sys(now, others) == Exec(old(Sys(now, others)), [EndAction(id, ending), Ack(id)]) && phase == Idle
    {
      ghost var s0 := Sys(now, others);
      if phase.Running? { End(ending, now, others); }
      assert Sys(now, others) == Next(s0, EndAction(id, ending));
      Leave(now, others);
      ExecTwo(s0, EndAction(id, ending), Ack(id));
    }

    /** `handle` from claim to acknowledgement, left alone: exactly its steps, one after the other. */
    method Handle(script: Script, now: int, ghost others: map<WorkerId, Phase>)
      requires phase.Reserved? && StagesIn(script.work) <= 3
      requires script.ending.Succeeded? ==> StagesIn(script.work) == 0 || StagesIn(script.work) == 3
      requires script.ending.Refused? && phase.job in db.rows ==> db.rows[phase.job].kind == Process
      modifies this, db, queue
      ensures Sys(now, others) == Exec(old(Sys(now, others)), HandleActions(id, script))
      ensures phase == Idle
      ensures Concludes(old(db.View()), old(queue.main), db.View(), queue.main, old(phase).job, script)
    {
      HandleConcludes(Sys(now, others), id, phase.job, script);
      ghost var s0 := Sys(now, others);
      ghost var work := WorkActions(id, script.work);
      ghost var last := [EndAction(id, script.ending), Ack(id)];
      ExecThreeParts(s0, Take(id), Action.Beat(id), work, last);
      TakeJob(now, others);
      if phase == Idle {
        WorkIsInside(id, script.work);
        IdleRests(Sys(now, others), id, work);
        IdleRests(Sys(now, others), id, last);
        return;
      }
      Beat(now, others);
      DoWork(script.work, now, others);
      EndAndLeave(script.ending, now, others);
    }

    /** One turn of `run`: reserve a delivery, and handle it if there was one. */
    method Serve(script: Script, now: int, ghost others: map<WorkerId, Phase>)
      requires phase == Idle && StagesIn(script.work) <= 3
      requires script.ending.Succeeded? ==> StagesIn(script.work) == 0 || StagesIn(script.work) == 3
      requires script.ending.Refused? ==> forall j :: j in queue.main && j in db.rows ==> db.rows[j].kind == Process
      modifies this, db, queue
      ensures phase == Idle
      ensures Sys(now, others) ==
        if old(queue.main) == [] then old(Sys(now, others))
        else Exec(Next(old(Sys(now, others)), Reserve(id)), HandleActions(id, script))
    {
      ReserveNext(now, others);
      if phase.Reserved? { Handle(script, now, others); }
    }
  }
}
